/** The pod agent's start-up: reading the labels file and splitting list arguments. */
module PodLabels {
  import opened Model
  import opened Seqs
  import opened Strings

  const POD_TEMPLATE_HASH := "pod-template-hash"

  /** A line `key="value"`; lines without `=` say nothing. */
  function ParseLine(line: string): Option<Label> {
    var i := Index(line, "=");
    if i < 0 then None else Some(Label(line[..i], Trim(line[i + 1..], IsQuote())))
  }

  function LabelsOf(line: string): seq<Label> {
    if ParseLine(line).Some? then [ParseLine(line).value] else []
  }

  function ParseLines(lines: seq<string>): seq<Label> {
    if lines == [] then [] else LabelsOf(lines[0]) + ParseLines(lines[1..])
  }

  lemma {:induction false} ParseLinesAppend(a: seq<string>, b: seq<string>)
    ensures ParseLines(a + b) == ParseLines(a) + ParseLines(b)
  {
    if a == [] {
      assert a + b == b;
    } else {
      ParseLinesAppend(a[1..], b);
      assert (a + b)[1..] == a[1..] + b;
      Associate(LabelsOf(a[0]), ParseLines(a[1..]), ParseLines(b));
    }
  }

  function HasEquals(): string -> bool {
    (line: string) => '=' in line
  }

  /** The labels read are, in order, those of the lines with `=`: the key is what stands before the first one,
      the value what stands behind it, without outer quotes. */
  lemma {:induction false} LinesMeaning(lines: seq<string>)
    ensures var (labels, kept) := (ParseLines(lines), Filter(HasEquals(), lines));
            && |labels| == |kept|
            && forall i :: 0 <= i < |labels| ==>
                 && '=' !in labels[i].key && labels[i].key + "=" <= kept[i]
                 && labels[i].value == Trim(kept[i][|labels[i].key| + 1..], IsQuote())
  {
    if lines != [] {
      LinesMeaning(lines[1..]);
      LineMeaning(lines[0]);
    }
  }

  lemma LineMeaning(line: string)
    ensures ParseLine(line).Some? <==> '=' in line
    ensures ParseLine(line).Some? ==>
              var l := ParseLine(line).value;
              '=' !in l.key && l.key + "=" <= line && l.value == Trim(line[|l.key| + 1..], IsQuote())
  {
    NoIndex(line, '=');
    var i := Index(line, "=");
    if i >= 0 {
      AtIndex(line, '=');
      IndexMeaning(line, "=");
      AtChar(line, '=');
      assert line[..i] + "=" == line[..i + 1];
    }
  }

  lemma NoLabelsExactly(lines: seq<string>)
    ensures ParseLines(lines) == [] <==> forall line :: line in lines ==> '=' !in line
  {
    LinesMeaning(lines);
    FilterMembers(HasEquals(), lines);
    if Filter(HasEquals(), lines) != [] {
      assert Filter(HasEquals(), lines)[0] in lines;
    }
  }

  /** Reads the labels; a file without any is an error. */
  method ReadLabels(lines: seq<string>) returns (labels: Option<seq<Label>>)
    ensures labels == if (forall line :: line in lines ==> '=' !in line) then None else Some(ParseLines(lines))
  {
    var found := [];
    for i := 0 to |lines|
      invariant found == ParseLines(lines[..i])
    {
      ParseLinesAppend(lines[..i], [lines[i]]);
      assert lines[..i + 1] == lines[..i] + [lines[i]];
      var idx := Index(lines[i], "=");
      if idx < 0 {
        continue;
      }
      var key := lines[i][..idx];
      var value := Trim(lines[i][idx + 1..], IsQuote());
      found := found + [Label(key, value)];
    }
    assert lines[..|lines|] == lines;
    NoLabelsExactly(lines);
    labels := if found == [] then None else Some(found);
  }

  function PrintLabel(l: Label): string {
    l.key + "=" + "\"" + l.value + "\""
  }

  function PrintLabels(labels: seq<Label>): seq<string> {
    if labels == [] then [] else [PrintLabel(labels[0])] + PrintLabels(labels[1..])
  }

  /** One printed label is read back exactly if its key has no `=` and its value no outer quotes. */
  lemma LineRoundTrip(l: Label)
    ensures ParseLine(PrintLabel(l)).Some?
    ensures ParseLine(PrintLabel(l)) == Some(l) <==> '=' !in l.key && Trimmed(l.value, IsQuote())
  {
    var line := PrintLabel(l);
    var quoted := "\"" + l.value + "\"";
    assert line == l.key + "=" + quoted;
    if '=' in l.key {
      KeyIsCut(l.key, quoted);
    } else {
      FirstIndex(l.key, '=', quoted);
      assert line[..|l.key|] == l.key;
      assert line[|l.key| + 1..] == quoted;
      TrimWrapped(l.value, IsQuote(), '"');
      TrimFixpoint(l.value, IsQuote());
    }
  }

  /** A key with `=` is cut at it. */
  lemma KeyIsCut(key: string, rest: string)
    requires '=' in key
    ensures 0 <= Index(key + "=" + rest, "=") < |key|
  {
    var k :| 0 <= k < |key| && key[k] == '=';
    AtChar(key + "=" + rest, '=');
    IndexMeaning(key + "=" + rest, "=");
    assert At(key + "=" + rest, "=", k);
  }

  /** Reading a printed label file gives back the same labels in order, exactly if every key is free
      of `=` and no value begins or ends with a quote. */
  lemma {:induction false} LabelFileRoundTrip(labels: seq<Label>)
    ensures |ParseLines(PrintLabels(labels))| == |labels|
    ensures ParseLines(PrintLabels(labels)) == labels <==>
              forall l :: l in labels ==> '=' !in l.key && Trimmed(l.value, IsQuote())
  {
    if labels != [] {
      var rest := labels[1..];
      LineRoundTrip(labels[0]);
      LabelFileRoundTrip(rest);
      var read := ParseLines(PrintLabels(labels));
      assert PrintLabels(labels)[1..] == PrintLabels(rest);
      assert read == [ParseLine(PrintLabel(labels[0])).value] + ParseLines(PrintLabels(rest));
      assert read[1..] == ParseLines(PrintLabels(rest));
      assert labels == [labels[0]] + rest;
    }
  }

  // ---- Dropping the template hash ----

  function NotHash(): Label -> bool {
    (l: Label) => l.key != POD_TEMPLATE_HASH
  }

  function DropFirstHash(labels: seq<Label>): seq<Label> {
    if labels == [] then []
    else if labels[0].key == POD_TEMPLATE_HASH then labels[1..]
    else [labels[0]] + DropFirstHash(labels[1..])
  }

  lemma {:induction false} DropAt(labels: seq<Label>, i: nat)
    requires i < |labels| && labels[i].key == POD_TEMPLATE_HASH
    requires forall k :: 0 <= k < i ==> labels[k].key != POD_TEMPLATE_HASH
    ensures DropFirstHash(labels) == labels[..i] + labels[i + 1..]
  {
    if i > 0 {
      DropAt(labels[1..], i - 1);
    }
  }

  lemma {:induction false} DropNothing(labels: seq<Label>)
    requires forall l :: l in labels ==> l.key != POD_TEMPLATE_HASH
    ensures DropFirstHash(labels) == labels
  {
    if labels != [] {
      DropNothing(labels[1..]);
    }
  }

  /** The loop that rebuilds the slice without the first template hash and stops. */
  method DropTemplateHash(labels: seq<Label>) returns (rest: seq<Label>)
    ensures rest == DropFirstHash(labels)
    ensures (forall l :: l in labels ==> l.key != "pod-template-hash") ==> rest == labels
    ensures forall i :: 0 <= i < |labels| && labels[i].key == "pod-template-hash"
                        && (forall k :: 0 <= k < i ==> labels[k].key != "pod-template-hash")
                        ==> rest == labels[..i] + labels[i + 1..]
  {
    rest := labels;
    for i := 0 to |labels|
      invariant rest == labels && forall k :: 0 <= k < i ==> labels[k].key != POD_TEMPLATE_HASH
    {
      if labels[i].key == POD_TEMPLATE_HASH {
        DropAt(labels, i);
        rest := labels[..i] + labels[i + 1..];
        return;
      }
    }
    DropNothing(labels);
  }

  function Hashes(labels: seq<Label>): nat {
    if labels == [] then 0 else (if labels[0].key == POD_TEMPLATE_HASH then 1 else 0) + Hashes(labels[1..])
  }

  /** No template hash is left and every other label stays in order, exactly if there was at most
      one - as when keys are unique. */
  lemma {:induction false} HashIsDropped(labels: seq<Label>)
    ensures DropFirstHash(labels) == Filter(NotHash(), labels) <==> Hashes(labels) <= 1
  {
    if labels != [] {
      var rest := labels[1..];
      if labels[0].key == POD_TEMPLATE_HASH {
        FilterMembers(NotHash(), rest);
        HashesZero(rest);
        if Hashes(rest) == 0 {
          FilterAll(NotHash(), rest);
        }
      } else {
        HashIsDropped(rest);
        assert DropFirstHash(labels)[1..] == DropFirstHash(rest);
        assert Filter(NotHash(), labels)[1..] == Filter(NotHash(), rest);
      }
    }
  }

  lemma {:induction false} HashesZero(labels: seq<Label>)
    ensures Hashes(labels) == 0 <==> forall l :: l in labels ==> l.key != POD_TEMPLATE_HASH
  {
    if labels != [] {
      HashesZero(labels[1..]);
      assert labels == [labels[0]] + labels[1..];
    }
  }

  // ---- List arguments ----

  function Trimming(): string -> string {
    (s: string) => TrimSpace(s)
  }

  function ListValue(argument: string): seq<string> {
    Map(Trimming(), Split(argument, ","))
  }

  /** Splits a comma-separated argument and trims the pieces. */
  method ParseList(argument: string) returns (items: seq<string>)
    ensures items == ListValue(argument)
  {
    var parts := Split(argument, ",");
    items := [];
    for i := 0 to |parts|
      invariant |items| == i && forall k :: 0 <= k < i ==> items[k] == TrimSpace(parts[k])
    {
      items := items + [TrimSpace(parts[i])];
    }
  }

  /** Splitting and trimming undoes joining, exactly for a non-empty list of items without commas and
      outer spaces. */
  lemma ListRoundTrip(items: seq<string>)
    ensures ListValue(Join(items, ",")) == items <==>
              items != [] && forall item :: item in items ==> ',' !in item && Trimmed(item, IsSpace)
  {
    var parts := Split(Join(items, ","), ",");
    SplitUndoesJoin(items, ',');
    if parts == items {
      forall k | 0 <= k < |items| ensures ListValue(Join(items, ","))[k] == items[k] <==> Trimmed(items[k], IsSpace) {
        TrimFixpoint(items[k], IsSpace);
      }
      if ListValue(Join(items, ",")) == items {
        forall item | item in items ensures Trimmed(item, IsSpace) {
          var k :| 0 <= k < |items| && items[k] == item;
        }
      }
    } else if items != [] {
      var k :| 0 <= k < |items| && ',' in items[k];
      CountJoin(items, ',', k);
      SplitLength(Join(items, ","), ',');
    }
  }
}
