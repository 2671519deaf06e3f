/** The string functions of Go's `strings` package that the components use. */
module Strings {

  /** `sub` occurs in `s` at position `k`. */
  predicate At(s: string, sub: string, k: int) {
    0 <= k && k + |sub| <= |s| && s[k..k + |sub|] == sub
  }

  function IndexFrom(s: string, sub: string, from: nat): (i: int)
    ensures i == -1 || from <= i <= |s| - |sub|
    decreases |s| - from
  {
    if |s| < from + |sub| then -1
    else if s[from..from + |sub|] == sub then from
    else if from == |s| then -1
    else IndexFrom(s, sub, from + 1)
  }

  /** Position of the first occurrence of `sub` in `s`, or -1: `strings.Index`. */
  function Index(s: string, sub: string): (i: int)
    ensures i == -1 || 0 <= i <= |s| - |sub|
  {
    IndexFrom(s, sub, 0)
  }

  lemma {:induction false} IndexFromMeaning(s: string, sub: string, from: nat)
    ensures var i := IndexFrom(s, sub, from);
            && (i == -1 || At(s, sub, i))
            && (forall k :: from <= k && At(s, sub, k) ==> 0 <= i <= k)
    decreases |s| - from
  {
    if from + |sub| <= |s| && s[from..from + |sub|] != sub && from < |s| {
      IndexFromMeaning(s, sub, from + 1);
    }
  }

  lemma IndexMeaning(s: string, sub: string)
    ensures Index(s, sub) == -1 || At(s, sub, Index(s, sub))
    ensures forall k :: At(s, sub, k) ==> 0 <= Index(s, sub) <= k
  {
    IndexFromMeaning(s, sub, 0);
  }

  /** A single character occurs where the text has it. */
  lemma AtChar(s: string, c: char)
    ensures forall k :: At(s, [c], k) <==> 0 <= k < |s| && s[k] == c
  {
    forall k ensures At(s, [c], k) <==> 0 <= k < |s| && s[k] == c {
      if 0 <= k < |s| {
        assert s[k..k + 1] == [s[k]];
      }
    }
  }

  predicate Contains(s: string, sub: string) {
    Index(s, sub) >= 0
  }

  function LastIndexBefore(s: string, c: char, end: nat): (i: int)
    requires end <= |s|
    ensures -1 <= i < end
  {
    if end == 0 then -1
    else if s[end - 1] == c then end - 1
    else LastIndexBefore(s, c, end - 1)
  }

  /** Position of the last occurrence of a character, or -1: `strings.LastIndex`. */
  function LastIndex(s: string, c: char): (i: int)
    ensures -1 <= i < |s| || i == -1
  {
    LastIndexBefore(s, c, |s|)
  }

  lemma {:induction false} LastIndexMeaning(s: string, c: char, end: nat)
    requires end <= |s|
    ensures var i := LastIndexBefore(s, c, end);
            (i >= 0 ==> s[i] == c) && (forall k :: i < k < end ==> s[k] != c)
  {
    if end > 0 && s[end - 1] != c {
      LastIndexMeaning(s, c, end - 1);
    }
  }

  /** `strings.Split` for a non-empty separator. */
  function Split(s: string, sep: string): (parts: seq<string>)
    requires sep != ""
    ensures parts != []
    decreases |s|
  {
    var i := Index(s, sep);
    if i < 0 then [s] else [s[..i]] + Split(s[i + |sep|..], sep)
  }

  function Join(parts: seq<string>, sep: string): string {
    if parts == [] then ""
    else if |parts| == 1 then parts[0]
    else parts[0] + sep + Join(parts[1..], sep)
  }

  /** Joining the pieces of a split gives back the text, and no piece contains the separator. */
  lemma {:induction false} JoinOfSplit(s: string, sep: string)
    requires sep != ""
    ensures Join(Split(s, sep), sep) == s
    ensures forall part :: part in Split(s, sep) ==> !Contains(part, sep)
    decreases |s|
  {
    var i := Index(s, sep);
    IndexMeaning(s, sep);
    if i >= 0 {
      JoinOfSplit(s[i + |sep|..], sep);
      assert s == s[..i] + sep + s[i + |sep|..];
      IndexMeaning(s[..i], sep);
      if Contains(s[..i], sep) {
        PartOfHead(s, i, Index(s[..i], sep), |sep|);
        assert At(s, sep, Index(s[..i], sep));
      }
    }
  }

  /** Splitting at a character what was joined from pieces without it gives back the pieces. */
  lemma {:induction false} SplitOfJoin(parts: seq<string>, c: char)
    requires parts != [] && forall part :: part in parts ==> c !in part
    ensures Split(Join(parts, [c]), [c]) == parts
    decreases |parts|
  {
    var joined := Join(parts, [c]);
    assert parts[0] in parts;
    if |parts| == 1 {
      NoIndex(joined, c);
    } else {
      SplitOfJoin(parts[1..], c);
      FirstIndex(parts[0], c, Join(parts[1..], [c]));
      assert joined == parts[0] + [c] + Join(parts[1..], [c]);
      assert joined[..|parts[0]|] == parts[0];
      assert joined[|parts[0]| + 1..] == Join(parts[1..], [c]);
    }
  }

  lemma NoIndex(s: string, c: char)
    ensures Index(s, [c]) < 0 <==> c !in s
  {
    AtChar(s, c);
    IndexMeaning(s, [c]);
    if c in s {
      var k :| 0 <= k < |s| && s[k] == c;
      assert At(s, [c], k);
    }
  }

  lemma FirstIndex(a: string, c: char, b: string)
    requires c !in a
    ensures Index(a + [c] + b, [c]) == |a|
  {
    var s := a + [c] + b;
    AtChar(s, c);
    IndexMeaning(s, [c]);
    assert At(s, [c], |a|);
    assert forall k :: 0 <= k < |a| ==> s[k] == a[k];
  }

  function Count(s: string, c: char): nat {
    if s == "" then 0 else (if s[0] == c then 1 else 0) + Count(s[1..], c)
  }

  lemma {:induction false} CountAppend(a: string, b: string, c: char)
    ensures Count(a + b, c) == Count(a, c) + Count(b, c)
  {
    if a == "" {
      assert a + b == b;
    } else {
      CountAppend(a[1..], b, c);
      assert (a + b)[1..] == a[1..] + b;
    }
  }

  lemma {:induction false} CountZero(s: string, c: char)
    ensures Count(s, c) == 0 <==> c !in s
  {
    if s != "" {
      CountZero(s[1..], c);
      assert s == [s[0]] + s[1..];
    }
  }

  lemma {:induction false} SplitLength(s: string, c: char)
    ensures |Split(s, [c])| == Count(s, c) + 1
    decreases |s|
  {
    var i := Index(s, [c]);
    NoIndex(s, c);
    CountZero(s, c);
    if i >= 0 {
      SplitLength(s[i + 1..], c);
      AtChar(s, c);
      IndexMeaning(s, [c]);
      assert s == s[..i] + [c] + s[i + 1..];
      CountAppend(s[..i] + [c], s[i + 1..], c);
      CountAppend(s[..i], [c], c);
      assert forall k :: 0 <= k < i ==> !At(s, [c], k);
      CountZero(s[..i], c);
      assert Count([c], c) == 1;
    }
  }

  lemma {:induction false} CountJoin(parts: seq<string>, c: char, k: int)
    requires parts != []
    ensures Count(Join(parts, [c]), c) >= |parts| - 1
    ensures 0 <= k < |parts| && c in parts[k] ==> Count(Join(parts, [c]), c) >= |parts|
    decreases |parts|
  {
    CountZero(parts[0], c);
    if |parts| > 1 {
      CountJoin(parts[1..], c, k - 1);
      assert Count([c], c) == 1;
      CountAppend(parts[0] + [c], Join(parts[1..], [c]), c);
      CountAppend(parts[0], [c], c);
    }
  }

  /** Exactly when splitting undoes joining. */
  lemma SplitUndoesJoin(parts: seq<string>, c: char)
    ensures Split(Join(parts, [c]), [c]) == parts <==> parts != [] && forall part :: part in parts ==> c !in part
    ensures (exists part :: part in parts && c in part) ==> |Split(Join(parts, [c]), [c])| > |parts|
  {
    if parts != [] && forall part :: part in parts ==> c !in part {
      SplitOfJoin(parts, c);
    } else if parts != [] {
      var k :| 0 <= k < |parts| && c in parts[k];
      CountJoin(parts, c, k);
      SplitLength(Join(parts, [c]), c);
    }
  }

  lemma FirstPiece(a: string, c: char, b: string)
    requires c !in a
    ensures Split(a + [c] + b, [c]) == [a] + Split(b, [c])
  {
    FirstIndex(a, c, b);
    assert (a + [c] + b)[|a| + 1..] == b && (a + [c] + b)[..|a|] == a;
  }

  lemma CutAtFirst(s: string, c: char) returns (head: string, tail: string)
    requires c in s
    ensures s == head + [c] + tail && c !in head
  {
    var i := Index(s, [c]);
    NoIndex(s, c);
    AtChar(s, c);
    IndexMeaning(s, [c]);
    head, tail := s[..i], s[i + 1..];
    assert forall k :: 0 <= k < i ==> !At(s, [c], k);
  }

  /** Splitting two texts put together with the separator. */
  lemma {:induction false} SplitConcat(a: string, c: char, b: string)
    ensures Split(a + [c] + b, [c]) == Split(a, [c]) + Split(b, [c])
    decreases |a|
  {
    if c !in a {
      FirstPiece(a, c, b);
      NoIndex(a, c);
    } else {
      var head, tail := CutAtFirst(a, c);
      FirstPiece(head, c, tail);
      FirstPiece(head, c, tail + [c] + b);
      assert a + [c] + b == head + [c] + (tail + [c] + b);
      SplitConcat(tail, c, b);
      assert [head] + (Split(tail, [c]) + Split(b, [c])) == ([head] + Split(tail, [c])) + Split(b, [c]);
    }
  }

  /** The pieces of joined texts are the pieces of the texts; of no text, one empty piece. */
  lemma {:induction false} PiecesOfJoined(parts: seq<string>, c: char)
    ensures parts == [] ==> Split(Join(parts, [c]), [c]) == [""]
    ensures parts != [] ==>
              forall item :: item in Split(Join(parts, [c]), [c]) <==> exists p :: p in parts && item in Split(p, [c])
  {
    if parts == [] {
      NoIndex("", c);
    } else if |parts| == 1 {
      assert parts == [parts[0]] && Join(parts, [c]) == parts[0];
    } else {
      PiecesOfJoined(parts[1..], c);
      var rest := Join(parts[1..], [c]);
      SplitConcat(parts[0], c, rest);
      assert Join(parts, [c]) == parts[0] + [c] + rest;
      assert forall p :: p in parts <==> p == parts[0] || p in parts[1..] by {
        assert parts == [parts[0]] + parts[1..];
      }
      forall item ensures item in Split(Join(parts, [c]), [c]) <==> exists p :: p in parts && item in Split(p, [c]) {
        assert item in Split(Join(parts, [c]), [c]) <==> item in Split(parts[0], [c]) || item in Split(rest, [c]);
      }
    }
  }

  lemma PieceIsFirstOrLater(s: string, sep: string, part: string)
    requires sep != "" && part in Split(s, sep)
    ensures var i := Index(s, sep);
            if i < 0 then part == s else part == s[..i] || part in Split(s[i + |sep|..], sep)
  {
    var i := Index(s, sep);
    if i >= 0 {
      assert Split(s, sep) == [s[..i]] + Split(s[i + |sep|..], sep);
    }
  }

  /** Every piece of a split is a contiguous part of the text. */
  lemma {:induction false} PieceIsPart(s: string, sep: string, part: string) returns (at: nat)
    requires sep != "" && part in Split(s, sep)
    ensures at + |part| <= |s| && s[at..at + |part|] == part
    decreases |s|
  {
    var i := Index(s, sep);
    PieceIsFirstOrLater(s, sep, part);
    if i < 0 || part == s[..i] {
      at := 0;
    } else {
      var rest := PieceIsPart(s[i + |sep|..], sep, part);
      at := i + |sep| + rest;
      TailPart(s, i + |sep|, rest, part);
    }
  }

  lemma TailPart(s: string, from: nat, at: nat, part: string)
    requires from + at + |part| <= |s| && s[from..][at..at + |part|] == part
    ensures s[from + at..from + at + |part|] == part
  {
    PartOfTail(s, from, at, |part|);
  }

  lemma PartOfPart(s: string, from: nat, end: nat, at: nat, length: nat)
    requires from <= end <= |s| && from + at + length <= end
    ensures s[from..end][at..at + length] == s[from + at..from + at + length]
  {
    var whole, part, direct := s[from..end], s[from..end][at..at + length], s[from + at..from + at + length];
    forall k | 0 <= k < length ensures part[k] == direct[k] {
      assert whole[at + k] == s[from + at + k];
    }
  }

  lemma PartOfHead(s: string, end: nat, at: nat, length: nat)
    requires end <= |s| && at + length <= end
    ensures s[..end][at..at + length] == s[at..at + length]
  {
    PartOfPart(s, 0, end, at, length);
    assert s[0..end] == s[..end];
  }

  lemma PartOfTail(s: string, from: nat, at: nat, length: nat)
    requires from + at + length <= |s|
    ensures s[from..][at..at + length] == s[from + at..from + at + length]
  {
  }

  /** A part of a piece of a split is a part of the text. */
  lemma PartOfPiece(s: string, sep: string, piece: string, at: nat, length: nat)
    requires sep != "" && piece in Split(s, sep) && at + length <= |piece|
    ensures Contains(s, piece[at..at + length])
  {
    var start := PieceIsPart(s, sep, piece);
    PartOfPart(s, start, start + |piece|, at, length);
    assert At(s, piece[at..at + length], start + at);
    IndexMeaning(s, piece[at..at + length]);
  }

  lemma PieceLacksSeparator(s: string, c: char, piece: string)
    requires piece in Split(s, [c])
    ensures c !in piece
  {
    JoinOfSplit(s, [c]);
    NoIndex(piece, c);
  }

  function LastOf(parts: seq<string>): string
    requires parts != []
  {
    parts[|parts| - 1]
  }

  lemma SplitLast(s: string, sep: string)
    requires sep != "" && Index(s, sep) >= 0
    ensures LastOf(Split(s, sep)) == LastOf(Split(s[Index(s, sep) + |sep|..], sep))
  {
  }

  /** The last piece of a split at a character is what follows its last occurrence. */
  lemma {:induction false} LastPiece(s: string, c: char)
    ensures LastOf(Split(s, [c])) == s[LastIndex(s, c) + 1..]
    decreases |s|
  {
    var i := Index(s, [c]);
    if i >= 0 {
      var rest := s[i + 1..];
      assert LastOf(Split(s, [c])) == LastOf(Split(rest, [c])) by {
        SplitLast(s, [c]);
        assert |[c]| == 1;
      }
      LastPiece(rest, c);
      LastOfRest(s, c, i);
    } else {
      NoOccurrence(s, c);
    }
  }

  lemma LastOfRest(s: string, c: char, i: nat)
    requires i == Index(s, [c])
    ensures s[i + 1..][LastIndex(s[i + 1..], c) + 1..] == s[LastIndex(s, c) + 1..]
  {
    AtIndex(s, c);
    LastIndexShift(s, c, i);
    DropDrop(s, i + 1, LastIndex(s[i + 1..], c) + 1);
  }

  lemma NoOccurrence(s: string, c: char)
    requires Index(s, [c]) < 0
    ensures Split(s, [c]) == [s] && s[LastIndex(s, c) + 1..] == s
  {
    NoIndex(s, c);
    LastIndexUnique(s, c, -1);
  }

  lemma AtIndex(s: string, c: char)
    requires Index(s, [c]) >= 0
    ensures s[Index(s, [c])] == c
  {
    AtChar(s, c);
    IndexMeaning(s, [c]);
  }

  lemma DropDrop(s: string, a: nat, b: nat)
    requires a + b <= |s|
    ensures s[a..][b..] == s[a + b..]
  {
  }

  lemma LastIndexSplits(s: string, c: char)
    ensures LastIndex(s, c) >= 0 ==> s[LastIndex(s, c)] == c
    ensures c !in s[LastIndex(s, c) + 1..]
  {
    LastIndexMeaning(s, c, |s|);
  }

  lemma LastIndexUnique(s: string, c: char, p: int)
    requires -1 <= p < |s| && (p >= 0 ==> s[p] == c)
    requires forall k :: p < k < |s| ==> s[k] != c
    ensures LastIndex(s, c) == p
  {
    LastIndexMeaning(s, c, |s|);
  }

  lemma LastIndexShift(s: string, c: char, i: nat)
    requires i < |s| && s[i] == c
    ensures LastIndex(s, c) == i + 1 + LastIndex(s[i + 1..], c)
  {
    var rest := s[i + 1..];
    var l := LastIndex(rest, c);
    LastIndexMeaning(rest, c, |rest|);
    forall k | i + 1 + l < k < |s| ensures s[k] != c {
      assert s[k] == rest[k - i - 1];
    }
    LastIndexUnique(s, c, i + 1 + l);
  }

  // ---- Trimming ----

  /** `unicode.IsSpace`, the characters that `strings.TrimSpace` removes. */
  predicate IsSpace(c: char) {
    || '\t' <= c <= '\r' || c == ' ' || c == '\U{85}' || c == '\U{A0}' || c == '\U{1680}'
    || '\U{2000}' <= c <= '\U{200A}' || c == '\U{2028}' || c == '\U{2029}' || c == '\U{202F}'
    || c == '\U{205F}' || c == '\U{3000}'
  }

  function IsQuote(): char -> bool {
    (c: char) => c == '"'
  }

  function TrimLeft(s: string, drop: char -> bool): string {
    if s != "" && drop(s[0]) then TrimLeft(s[1..], drop) else s
  }

  function TrimRight(s: string, drop: char -> bool): string {
    if s != "" && drop(s[|s| - 1]) then TrimRight(s[..|s| - 1], drop) else s
  }

  function Trim(s: string, drop: char -> bool): string {
    TrimRight(TrimLeft(s, drop), drop)
  }

  function TrimSpace(s: string): string {
    Trim(s, IsSpace)
  }

  /** Nothing to trim at either end. */
  predicate Trimmed(s: string, drop: char -> bool) {
    s == "" || (!drop(s[0]) && !drop(s[|s| - 1]))
  }

  lemma {:induction false} TrimLeftShape(s: string, drop: char -> bool) returns (n: nat)
    ensures n <= |s| && TrimLeft(s, drop) == s[n..]
    ensures forall k :: 0 <= k < n ==> drop(s[k])
    ensures n < |s| ==> !drop(s[n])
  {
    if s != "" && drop(s[0]) {
      var m := TrimLeftShape(s[1..], drop);
      n := m + 1;
    } else {
      n := 0;
    }
  }

  lemma {:induction false} TrimRightShape(s: string, drop: char -> bool) returns (n: nat)
    ensures n <= |s| && TrimRight(s, drop) == s[..n]
    ensures forall k :: n <= k < |s| ==> drop(s[k])
    ensures n > 0 ==> !drop(s[n - 1])
    decreases |s|
  {
    if s != "" && drop(s[|s| - 1]) {
      n := TrimRightShape(s[..|s| - 1], drop);
    } else {
      n := |s|;
    }
  }

  /** Trimming cuts off what is to be dropped at both ends, and nothing more. */
  lemma TrimMeaning(s: string, drop: char -> bool) returns (i: nat, j: nat)
    ensures i <= j <= |s| && Trim(s, drop) == s[i..j]
    ensures (forall k :: 0 <= k < i ==> drop(s[k])) && (forall k :: j <= k < |s| ==> drop(s[k]))
    ensures i < j ==> !drop(s[i]) && !drop(s[j - 1])
  {
    i := TrimLeftShape(s, drop);
    var t := s[i..];
    var n := TrimRightShape(t, drop);
    j := i + n;
    forall k | j <= k < |s| ensures drop(s[k]) {
      assert s[k] == t[k - i];
    }
    assert t[..n] == s[i..j];
  }

  /** What is left of a text is its part from the first to the last character that is no space. */
  lemma TrimSpaceMeaning(s: string) returns (i: nat, j: nat)
    ensures i <= j <= |s| && TrimSpace(s) == s[i..j]
    ensures (forall k :: 0 <= k < i ==> IsSpace(s[k])) && (forall k :: j <= k < |s| ==> IsSpace(s[k]))
    ensures i < j ==> !IsSpace(s[i]) && !IsSpace(s[j - 1])
  {
    i, j := TrimMeaning(s, IsSpace);
  }

  /** A text is its own trimming exactly if there is nothing to trim at either end. */
  lemma TrimFixpoint(s: string, drop: char -> bool)
    ensures Trim(s, drop) == s <==> Trimmed(s, drop)
  {
    var n := TrimLeftShape(s, drop);
    var m := TrimRightShape(TrimLeft(s, drop), drop);
  }

  /** Trimming a text wrapped in trimmable characters trims the text. */
  lemma TrimWrapped(s: string, drop: char -> bool, c: char)
    requires drop(c)
    ensures Trim([c] + s + [c], drop) == Trim(s, drop)
  {
    assert ([c] + s + [c])[1..] == s + [c];
    TrimLeftSnoc(s, drop, c);
    var n := TrimLeftShape(s, drop);
    var t := TrimLeft(s, drop);
    if t != "" {
      assert (t + [c])[..|t|] == t;
    }
  }

  lemma {:induction false} TrimLeftSnoc(s: string, drop: char -> bool, c: char)
    requires drop(c)
    ensures TrimLeft(s + [c], drop) == if TrimLeft(s, drop) == "" then "" else TrimLeft(s, drop) + [c]
  {
    if s == "" {
      assert TrimLeft([c], drop) == TrimLeft([c][1..], drop);
      assert s + [c] == [c];
    } else {
      assert (s + [c])[1..] == s[1..] + [c];
      if drop(s[0]) {
        TrimLeftSnoc(s[1..], drop, c);
      }
    }
  }

  // ---- Decimal numbers ----

  function Decimal(n: nat): string {
    if n < 10 then ["0123456789"[n]] else Decimal(n / 10) + ["0123456789"[n % 10]]
  }

  lemma LastDigit(n: nat)
    ensures |Decimal(n)| >= 1 && (|Decimal(n)| == 1 <==> n < 10)
    ensures Decimal(n)[|Decimal(n)| - 1] == "0123456789"[n % 10]
    ensures n >= 10 ==> Decimal(n)[..|Decimal(n)| - 1] == Decimal(n / 10)
  {
  }

  lemma DigitDetermines(m: nat, n: nat)
    requires m < 10 && n < 10 && "0123456789"[m] == "0123456789"[n]
    ensures m == n
  {
  }

  /** Different numbers are written differently. */
  lemma {:induction false} DecimalDetermines(m: nat, n: nat)
    ensures Decimal(m) == Decimal(n) <==> m == n
  {
    LastDigit(m);
    LastDigit(n);
    if Decimal(m) == Decimal(n) {
      DigitDetermines(m % 10, n % 10);
      if m >= 10 {
        DecimalDetermines(m / 10, n / 10);
      }
    }
  }
}
