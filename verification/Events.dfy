/** Events as agents report them and as the server stores them. */
module Events {
  import opened Model

  datatype ProcessInfo = ProcessInfo(pid: int, name: string)

  datatype ViolatedFile = ViolatedFile(name: string, actualSha256Sum: string, expectedSha256Sum: string)

  datatype PodInfo = PodInfo(uid: string, namespace: string, name: string, labels: seq<Label>)

  /** `priority` is the number of the Falco priority, 0 for emergency up to 7 for debug. */
  datatype FalcoAlert = FalcoAlert(priority: int, output: string)

  datatype Target = Target(
    pod: Option<PodInfo>,
    violatedProcesses: seq<ProcessInfo>,
    violatedFiles: seq<ViolatedFile>,
    falcoAlert: Option<FalcoAlert>)

  datatype Event = Event(
    eventType: string,
    uid: string,
    serverTimestamp: Option<int>,
    clientTimestamp: Option<int>,
    targets: seq<Target>)

  const EVENT_TYPE_VIOLATION := "violation"
  const EVENT_TYPE_FALCO_ALERT := "falco_alert"
  const EVENT_TYPE_DETECTION := "tarian-detection/detection"
}
