/** The batch payload handed to the writer in one call: the buffered entries
    joined by a newline, followed by one trailing newline
    (`strings.Join(buffer, "\n") + "\n"` in main.go). Strings are modelled as
    sequences of characters; the conversion to bytes is not modelled. */
module Payload {
  import opened Wrappers

  const Newline: char := '\n'

  predicate NoNewline(x: string) {
    Newline !in x
  }

  predicate AllNoNewline(xs: seq<string>) {
    forall i :: 0 <= i < |xs| ==> NoNewline(xs[i])
  }

  /** `strings.Join(xs, "\n")`: the first element, then each further element
      preceded by one separator; the empty list joins to the empty string. */
  function Join(xs: seq<string>): string
  {
    if |xs| == 0 then ""
    else if |xs| == 1 then xs[0]
    else Join(xs[..|xs| - 1]) + [Newline] + xs[|xs| - 1]
  }

  /** The payload of one batch, as built at both flush sites of the loop. */
  function Encode(xs: seq<string>): string
  {
    Join(xs) + [Newline]
  }

  /** Reference definition of the payload: every entry followed by its own
      newline. */
  function Terminated(xs: seq<string>): string
  {
    if |xs| == 0 then ""
    else Terminated(xs[..|xs| - 1]) + xs[|xs| - 1] + [Newline]
  }

  /** Position of the last occurrence of `c` in `s`, or -1 when there is none. */
  function LastIndex(s: string, c: char): (i: int)
    ensures -1 <= i < |s|
    ensures i == -1 <==> c !in s
    ensures 0 <= i ==> s[i] == c && c !in s[i + 1..]
  {
    if |s| == 0 then -1
    else if s[|s| - 1] == c then |s| - 1
    else
      assert s == s[..|s| - 1] + [s[|s| - 1]];
      LastIndex(s[..|s| - 1], c)
  }

  /** Splitting on newlines, with the pieces `strings.Split(s, "\n")` yields:
      always at least one piece, none containing a newline. */
  function Split(s: string): (r: seq<string>)
    ensures |r| >= 1
    ensures AllNoNewline(r)
    decreases |s|
  {
    var i := LastIndex(s, Newline);
    if i < 0 then [s] else Split(s[..i]) + [s[i + 1..]]
  }

  /** Reading a payload back: drop the trailing newline and split on the rest.
      A string without the trailing newline is not a payload. */
  function Decode(p: string): (r: Option<seq<string>>)
    ensures r.Some? <==> |p| > 0 && p[|p| - 1] == Newline
    ensures r.Some? ==> |r.value| >= 1 && AllNoNewline(r.value)
  {
    if |p| > 0 && p[|p| - 1] == Newline then Some(Split(p[..|p| - 1])) else None
  }

  /** All entries of a list of batches, batch after batch. */
  function Concat(bs: seq<seq<string>>): seq<string>
  {
    if |bs| == 0 then [] else Concat(bs[..|bs| - 1]) + bs[|bs| - 1]
  }

  /** The bytes a writer sees when handed each batch's payload in order. */
  function Payloads(bs: seq<seq<string>>): string
  {
    if |bs| == 0 then "" else Payloads(bs[..|bs| - 1]) + Encode(bs[|bs| - 1])
  }

  predicate AllNonEmpty(bs: seq<seq<string>>) {
    forall i :: 0 <= i < |bs| ==> |bs[i]| > 0
  }

  lemma ConcatAppend(bs: seq<seq<string>>, b: seq<string>)
    ensures Concat(bs + [b]) == Concat(bs) + b
  {
    assert (bs + [b])[..|bs|] == bs;
  }

  /** For a non-empty batch the joined payload is exactly every entry followed
      by a newline. */
  lemma {:induction false} EncodeIsTerminated(xs: seq<string>)
    requires |xs| > 0
    ensures Encode(xs) == Terminated(xs)
  {
    if |xs| == 1 {
      assert xs[..0] == [];
    } else {
      var init := xs[..|xs| - 1];
      EncodeIsTerminated(init);
      assert Encode(xs) == Encode(init) + xs[|xs| - 1] + [Newline];
    }
  }

  lemma {:induction false} TerminatedAppend(a: seq<string>, b: seq<string>)
    ensures Terminated(a + b) == Terminated(a) + Terminated(b)
    decreases |b|
  {
    if |b| == 0 {
      assert a + b == a;
    } else {
      var b' := b[..|b| - 1];
      TerminatedAppend(a, b');
      assert (a + b)[..|a + b| - 1] == a + b';
    }
  }

  /** Handing the writer the non-empty batches one after another produces the
      same bytes as terminating every entry of all of them, in order: no
      batch's bytes are interleaved with another's. */
  lemma {:induction false} PayloadsAreTerminatedEntries(bs: seq<seq<string>>)
    requires AllNonEmpty(bs)
    ensures Payloads(bs) == Terminated(Concat(bs))
  {
    if |bs| > 0 {
      var init := bs[..|bs| - 1];
      var last := bs[|bs| - 1];
      PayloadsAreTerminatedEntries(init);
      EncodeIsTerminated(last);
      TerminatedAppend(Concat(init), last);
    }
  }

  /** The last newline of `a + "\n" + b` is the separator when `b` has none. */
  lemma LastIndexAtSeparator(a: string, b: string)
    requires NoNewline(b)
    ensures LastIndex(a + [Newline] + b, Newline) == |a|
  {
    var s := a + [Newline] + b;
    assert s[|a|] == Newline;
    assert s[|a| + 1..] == b;
  }

  /** Splitting at the last separator peels off the newline-free tail. */
  lemma SplitLast(a: string, b: string)
    requires NoNewline(b)
    ensures Split(a + [Newline] + b) == Split(a) + [b]
  {
    var s := a + [Newline] + b;
    LastIndexAtSeparator(a, b);
    assert s[..|a|] == a;
    assert s[|a| + 1..] == b;
  }

  /** Splitting a joined list of newline-free entries recovers the list. */
  lemma {:induction false} SplitJoin(xs: seq<string>)
    requires |xs| >= 1
    requires AllNoNewline(xs)
    ensures Split(Join(xs)) == xs
  {
    if |xs| == 1 {
      assert NoNewline(xs[0]);
    } else {
      var init := xs[..|xs| - 1];
      assert AllNoNewline(init) by {
        forall i | 0 <= i < |init| ensures NoNewline(init[i]) {
          assert init[i] == xs[i];
        }
      }
      assert NoNewline(xs[|xs| - 1]);
      SplitLast(Join(init), xs[|xs| - 1]);
      SplitJoin(init);
      assert xs == init + [xs[|xs| - 1]];
    }
  }

  /** Joining the pieces of a split gives the original string back. */
  lemma {:induction false} JoinSplit(s: string)
    ensures Join(Split(s)) == s
    decreases |s|
  {
    var i := LastIndex(s, Newline);
    if i >= 0 {
      var front := Split(s[..i]);
      JoinSplit(s[..i]);
      var r := front + [s[i + 1..]];
      assert r[..|r| - 1] == front;
      assert s == s[..i] + [Newline] + s[i + 1..];
    }
  }

  /** Round trip: a non-empty batch whose entries hold no newline is recovered
      exactly from its payload. */
  lemma DecodeEncode(xs: seq<string>)
    requires |xs| >= 1
    requires AllNoNewline(xs)
    ensures Decode(Encode(xs)) == Some(xs)
  {
    var p := Encode(xs);
    assert p[..|p| - 1] == Join(xs);
    SplitJoin(xs);
  }

  /** The other direction: whatever decodes is the payload of what it decodes
      to. */
  lemma EncodeDecode(p: string, xs: seq<string>)
    requires Decode(p) == Some(xs)
    ensures Encode(xs) == p
  {
    JoinSplit(p[..|p| - 1]);
    assert p == p[..|p| - 1] + [Newline];
  }
}
