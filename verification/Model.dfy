/** The protobuf messages that several components exchange.

    A protobuf repeated field does not tell an empty list from an absent one, and an absent
    optional string is read as the empty string; so `[]` and `""` stand for both here. */
module Model {

  datatype Option<+T> = None | Some(value: T)

  datatype Label = Label(key: string, value: string)

  datatype FileRule = FileRule(name: string, sha256Sum: string)

  datatype Constraint = Constraint(
    namespace: string,
    name: string,
    matchLabels: seq<Label>,
    allowedProcesses: seq<string>,
    allowedFiles: seq<FileRule>)

  /** The text under which a label enters a label set: `key=value`. */
  function LabelText(l: Label): string {
    l.key + "=" + l.value
  }

  function LabelTexts(labels: seq<Label>): set<string> {
    set l | l in labels :: LabelText(l)
  }

  /** A selector lies within some labels exactly if each of its labels has the text of one of these. */
  lemma TextsWithin(selector: seq<Label>, labels: seq<Label>)
    ensures LabelTexts(selector) <= LabelTexts(labels) <==>
              forall l :: l in selector ==> exists m :: m in labels && m.key + "=" + m.value == l.key + "=" + l.value
  {
    if LabelTexts(selector) <= LabelTexts(labels) {
      forall l | l in selector
        ensures exists m :: m in labels && m.key + "=" + m.value == l.key + "=" + l.value
      {
        assert LabelText(l) in LabelTexts(selector);
        var m :| m in labels && LabelText(m) == LabelText(l);
      }
    }
  }
}
