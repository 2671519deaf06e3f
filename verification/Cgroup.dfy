/** Finding a container ID in the cgroup file of a process. */
module Cgroup {
  import opened Strings
  import PodWatcher

  const BPF_CONTAINER_ID_LENGTH := 31

  /** The container ID in the last directory of a cgroup path, and its offset there. */
  function ProcsContainerIDOffset(subdir: string): (string, int) {
    var p := LastIndex(subdir, ':') + 1;
    var fields := Split(subdir, ":");
    var idStr := LastOf(fields);
    var off := LastIndex(idStr, '-') + 1;
    var s := Split(idStr, "-");
    (LastOf(s), off + p)
  }

  function LastSubDir(cgroup: string): string {
    LastOf(Split(cgroup, "/"))
  }

  function LookupContainerID(cgroup: string): string {
    var container := ProcsContainerIDOffset(LastSubDir(cgroup)).0;
    if |container| >= BPF_CONTAINER_ID_LENGTH then container[..BPF_CONTAINER_ID_LENGTH] else ""
  }

  predicate Marked(line: string) {
    Contains(line, "pod") || Contains(line, "docker") || Contains(line, "libpod")
  }

  function FirstContainerID(lines: seq<string>): string {
    if lines == [] then ""
    else if Marked(lines[0]) && LookupContainerID(lines[0]) != "" then LookupContainerID(lines[0])
    else FirstContainerID(lines[1..])
  }

  function FindDockerIDFromCgroup(cgroups: string): string {
    FirstContainerID(Split(cgroups, "\n"))
  }

  /** `s[at..]` is the longest tail of `s` without the given characters. */
  predicate LongestTailWithout(s: string, at: int, chars: set<char>) {
    && 0 <= at <= |s|
    && (forall k :: at <= k < |s| ==> s[k] !in chars)
    && (at > 0 ==> s[at - 1] in chars)
  }

  /** The offset is where the ID stands, and the ID is the longest tail without `:` and `-`. */
  lemma OffsetIsPosition(subdir: string)
    ensures var (id, offset) := ProcsContainerIDOffset(subdir);
            LongestTailWithout(subdir, offset, {':', '-'}) && subdir[offset..] == id
  {
    var p := LastIndex(subdir, ':') + 1;
    var off := LastIndex(subdir[p..], '-') + 1;
    assert ProcsContainerIDOffset(subdir) == (subdir[p..][off..], off + p) by {
      OffsetValue(subdir);
    }
    assert ':' !in subdir[p..] && (p > 0 ==> subdir[p - 1] == ':') by {
      LastIndexSplits(subdir, ':');
    }
    assert LongestTailWithout(subdir[p..], off, {'-'}) by {
      LastIndexSplits(subdir[p..], '-');
    }
    assert {':'} + {'-'} == {':', '-'};
    TailOfTail(subdir, p, ':', off, {'-'});
  }

  lemma OffsetValue(subdir: string)
    ensures var p := LastIndex(subdir, ':') + 1;
            var off := LastIndex(subdir[p..], '-') + 1;
            ProcsContainerIDOffset(subdir) == (subdir[p..][off..], off + p)
  {
    var idStr := BehindColon(subdir);
    var id := BehindDash(idStr);
    OffsetOf(subdir, idStr, id);
  }

  lemma OffsetOf(subdir: string, idStr: string, id: string)
    requires LastOf(Split(subdir, ":")) == idStr && LastOf(Split(idStr, "-")) == id
    ensures ProcsContainerIDOffset(subdir) == (id, LastIndex(idStr, '-') + 1 + LastIndex(subdir, ':') + 1)
  {
  }

  lemma BehindColon(s: string) returns (tail: string)
    ensures LastOf(Split(s, ":")) == tail == s[LastIndex(s, ':') + 1..]
  {
    LastPiece(s, ':');
    tail := s[LastIndex(s, ':') + 1..];
  }

  lemma BehindDash(s: string) returns (tail: string)
    ensures LastOf(Split(s, "-")) == tail == s[LastIndex(s, '-') + 1..]
  {
    LastPiece(s, '-');
    tail := s[LastIndex(s, '-') + 1..];
  }

  /** What a line's container ID is: its longest tail without `/`, `:` and `-`, cut to 31
      characters, or nothing if that tail is shorter. */
  lemma LookupMeaning(line: string) returns (at: nat)
    ensures LongestTailWithout(line, at, {'/', ':', '-'})
    ensures LookupContainerID(line) ==
              if |line| - at >= BPF_CONTAINER_ID_LENGTH then line[at..at + BPF_CONTAINER_ID_LENGTH] else ""
  {
    at := IDPosition(line);
  }

  lemma IDPosition(line: string) returns (at: nat)
    ensures LongestTailWithout(line, at, {'/', ':', '-'})
    ensures line[at..] == ProcsContainerIDOffset(LastSubDir(line)).0
  {
    var d := DirPosition(line);
    var dir := LastSubDir(line);
    OffsetIsPosition(dir);
    var offset := ProcsContainerIDOffset(dir).1;
    at := d + offset;
    TailOfTail(line, d, '/', offset, {':', '-'});
    assert {'/'} + {':', '-'} == {'/', ':', '-'};
  }

  /** The longest tail without some characters of the longest tail without another one. */
  lemma TailOfTail(line: string, d: nat, c: char, offset: nat, chars: set<char>)
    requires d <= |line| && c !in line[d..] && (d > 0 ==> line[d - 1] == c)
    requires LongestTailWithout(line[d..], offset, chars)
    ensures LongestTailWithout(line, d + offset, {c} + chars)
    ensures line[d + offset..] == line[d..][offset..]
  {
    forall k | d + offset <= k < |line| ensures line[k] !in {c} + chars {
      assert line[k] == line[d..][k - d];
    }
  }

  lemma DirPosition(line: string) returns (at: nat)
    ensures at <= |line| && line[at..] == LastSubDir(line)
    ensures (at > 0 ==> line[at - 1] == '/') && '/' !in line[at..]
  {
    at := LastIndex(line, '/') + 1;
    assert line[at..] == LastSubDir(line) by {
      LastPiece(line, '/');
    }
    LastIndexSplits(line, '/');
  }

  /** The search stops at the first line that has one of three words and carries an ID. */
  lemma {:induction false} FirstContainerIDMeaning(lines: seq<string>) returns (i: nat)
    ensures i <= |lines|
    ensures forall k :: 0 <= k < i ==> !Carries(lines[k])
    ensures i < |lines| ==> Carries(lines[i]) && FirstContainerID(lines) == LookupContainerID(lines[i])
    ensures i == |lines| ==> FirstContainerID(lines) == ""
  {
    if lines == [] || Carries(lines[0]) {
      i := 0;
    } else {
      var k := FirstContainerIDMeaning(lines[1..]);
      i := k + 1;
    }
  }

  /** The line has one of the three words, and carries an ID. */
  predicate Carries(line: string) {
    && (Contains(line, "pod") || Contains(line, "docker") || Contains(line, "libpod"))
    && LookupContainerID(line) != ""
  }

  /** The ID of a line is a contiguous piece of the file, without separators. */
  lemma LineIDIsPart(cgroups: string, line: string)
    requires line in Split(cgroups, "\n") && LookupContainerID(line) != ""
    ensures var id := LookupContainerID(line);
            && |id| == BPF_CONTAINER_ID_LENGTH
            && Contains(cgroups, id)
            && (forall c :: c in id ==> c !in {'/', ':', '-', '\n'})
  {
    var at := LookupMeaning(line);
    assert LookupContainerID(line) == line[at..at + BPF_CONTAINER_ID_LENGTH];
    assert Contains(cgroups, line[at..at + BPF_CONTAINER_ID_LENGTH]) by {
      PartOfPiece(cgroups, "\n", line, at, BPF_CONTAINER_ID_LENGTH);
    }
    assert '\n' !in line by {
      PieceLacksSeparator(cgroups, '\n', line);
    }
  }

  /** The search yields nothing exactly if no marked line carries an ID; otherwise 31 consecutive
      characters of the file, none of them a separator. */
  lemma SearchMeaning(cgroups: string)
    ensures var id := FindDockerIDFromCgroup(cgroups);
            && (id == "" <==>
                  forall line :: line in Split(cgroups, "\n")
                                 && (Contains(line, "pod") || Contains(line, "docker") || Contains(line, "libpod"))
                                 ==> LookupContainerID(line) == "")
            && (id != "" ==>
                  && |id| == BPF_CONTAINER_ID_LENGTH
                  && Contains(cgroups, id)
                  && (forall c :: c in id ==> c !in {'/', ':', '-', '\n'}))
  {
    var lines := Split(cgroups, "\n");
    var i := FirstContainerIDMeaning(lines);
    if i < |lines| {
      assert lines[i] in lines;
      LineIDIsPart(cgroups, lines[i]);
    }
  }

  /** The ID of a container stands last in its line: of a text that has `pod` in it, a slash, and an ID, the
      ID's beginning is found. */
  lemma LastDirectoryIsFound(parent: string, id: string)
    requires Contains(parent, "pod") && '\n' !in parent
    requires |id| >= 31 && forall c :: c in id ==> c !in {'/', ':', '-', '\n'}
    ensures FindDockerIDFromCgroup(parent + "/" + id) == id[..31]
  {
    var line := parent + "/" + id;
    assert Contains(line, "pod") by {
      assert line == parent + ("/" + id);
      ContainsMore(parent, "/" + id, "pod");
    }
    var at := LookupMeaning(line);
    TailIsBehind(parent, id, at, {'/', ':', '-'});
    assert line[at..at + 31] == id[..31];
    OnlyLine(line);
  }

  lemma OnlyLine(line: string)
    requires '\n' !in line && Contains(line, "pod") && LookupContainerID(line) != ""
    ensures FindDockerIDFromCgroup(line) == LookupContainerID(line)
  {
    assert Split(line, "\n") == [line] by {
      NoIndex(line, '\n');
    }
  }

  lemma TailIsBehind(parent: string, id: string, at: nat, chars: set<char>)
    requires '/' in chars && forall c :: c in id ==> c !in chars
    requires LongestTailWithout(parent + "/" + id, at, chars)
    ensures at == |parent| + 1
  {
    var line := parent + "/" + id;
    assert line[|parent|] == '/';
    forall k | |parent| + 1 <= k < |line| ensures line[k] !in chars {
      assert line[k] == id[k - |parent| - 1];
    }
  }

  lemma ContainsMore(s: string, more: string, sub: string)
    requires Contains(s, sub)
    ensures Contains(s + more, sub)
  {
    IndexMeaning(s, sub);
    var k := Index(s, sub);
    assert (s + more)[k..k + |sub|] == s[k..k + |sub|];
    assert At(s + more, sub, k);
    IndexMeaning(s + more, sub);
  }

  /** An input: the line of a container of a Kubernetes pod. */
  lemma KubepodsLine(id: string)
    requires |id| == 64 && forall c :: c in id ==> c !in {'/', ':', '-', '\n'}
    ensures FindDockerIDFromCgroup("0::/kubepods/besteffort/pod1" + "/" + id) == id[..31]
  {
    var parent := "0::/kubepods/besteffort/pod1";
    assert At(parent, "pod", 8);
    IndexMeaning(parent, "pod");
    LastDirectoryIsFound(parent, id);
  }

  /** Every lookup the node agent makes is long enough for the index: for any cgroup file, the pod
      lookup by the ID found in it answers exactly if some stored pod runs a container whose ID
      starts with it. */
  lemma AgentLookupsAreComplete(
    cgroups: string, store: seq<PodWatcher.Pod>, byIndex: string -> seq<PodWatcher.Pod>)
    requires FindDockerIDFromCgroup(cgroups) != ""
    requires forall pod :: pod in store ==> PodWatcher.Wellformed(pod)
    requires var key := PodWatcher.Truncate(FindDockerIDFromCgroup(cgroups));
             PodWatcher.ByIndex(store, key, byIndex(key))
    ensures var id := FindDockerIDFromCgroup(cgroups);
            var r := PodWatcher.FindPod(id, byIndex);
            && (r.Some? <==> exists pod :: pod in store && PodWatcher.Runs(pod, id))
            && (r.Some? ==> r.value in store && PodWatcher.Runs(r.value, id))
  {
    SearchMeaning(cgroups);
    PodWatcher.FindPodAgreesWithStore(store, byIndex, FindDockerIDFromCgroup(cgroups));
  }
}
