/** Code-point order on strings and byte order on byte strings, as the comparison
    operators of the program use it, with the facts that make it a strict total order. */
module TextOrder {

  type Byte = x: int | 0 <= x < 256

  function Codes(s: string): (c: seq<int>)
    ensures |c| == |s|
    ensures forall i :: 0 <= i < |s| ==> c[i] == s[i] as int
  {
    seq(|s|, i requires 0 <= i < |s| => s[i] as int)
  }

  predicate Less(a: seq<int>, b: seq<int>)
    decreases |b|
  {
    b != [] && (a == [] || a[0] < b[0] || (a[0] == b[0] && Less(a[1..], b[1..])))
  }

  predicate TextLess(a: string, b: string) {
    Less(Codes(a), Codes(b))
  }

  lemma {:induction false} LessIrreflexive(a: seq<int>)
    ensures !Less(a, a)
    decreases |a|
  {
    if a != [] {
      LessIrreflexive(a[1..]);
    }
  }

  lemma {:induction false} LessTransitive(a: seq<int>, b: seq<int>, c: seq<int>)
    requires Less(a, b) && Less(b, c)
    ensures Less(a, c)
    decreases |b|
  {
    if a != [] && a[0] == b[0] == c[0] {
      LessTransitive(a[1..], b[1..], c[1..]);
    }
  }

  lemma {:induction false} LessTotal(a: seq<int>, b: seq<int>)
    ensures Less(a, b) || a == b || Less(b, a)
    decreases |a|
  {
    if a != [] && b != [] && a[0] == b[0] {
      LessTotal(a[1..], b[1..]);
      if a[1..] == b[1..] {
        assert a == [a[0]] + a[1..] == [b[0]] + b[1..] == b;
      }
    }
  }

  lemma CodesInjective(a: string, b: string)
    requires Codes(a) == Codes(b)
    ensures a == b
  {
    assert |a| == |b|;
    forall i | 0 <= i < |a|
      ensures a[i] == b[i]
    {
      assert Codes(a)[i] == Codes(b)[i];
    }
  }

  /** Strict total order on strings. */
  lemma TextLessIsOrder(a: string, b: string, c: string)
    ensures !TextLess(a, a)
    ensures TextLess(a, b) && TextLess(b, c) ==> TextLess(a, c)
    ensures TextLess(a, b) || a == b || TextLess(b, a)
  {
    LessIrreflexive(Codes(a));
    if TextLess(a, b) && TextLess(b, c) {
      LessTransitive(Codes(a), Codes(b), Codes(c));
    }
    LessTotal(Codes(a), Codes(b));
    if Codes(a) == Codes(b) {
      CodesInjective(a, b);
    }
  }

  // ---- sorting strings ---------------------------------------------------------

  function InsertText(t: string, s: seq<string>): seq<string> {
    if s == [] then [t]
    else if TextLess(s[0], t) then [s[0]] + InsertText(t, s[1..])
    else [t] + s
  }

  function SortedText(s: seq<string>): seq<string> {
    if s == [] then [] else InsertText(s[0], SortedText(s[1..]))
  }

  predicate InTextOrder(s: seq<string>) {
    forall i, j | 0 <= i < j < |s| :: !TextLess(s[j], s[i])
  }

  lemma PrependedInOrder(t: string, s: seq<string>)
    requires InTextOrder(s) && forall x | x in s :: !TextLess(x, t)
    ensures InTextOrder([t] + s)
  {
    hide TextLess;
  }

  lemma {:induction false} InsertTextKeeps(t: string, s: seq<string>)
    requires InTextOrder(s)
    ensures InTextOrder(InsertText(t, s))
    ensures multiset(InsertText(t, s)) == multiset(s) + multiset{t}
  {
    hide TextLess;
    if s == [] {
    } else if TextLess(s[0], t) {
      var rest := s[1..];
      assert s == [s[0]] + rest;
      InsertTextKeeps(t, rest);
      TextLessIsOrder(s[0], t, s[0]);
      TextLessIsOrder(s[0], s[0], s[0]);
      assert forall x | x in InsertText(t, rest) :: x in multiset(rest) + multiset{t};
      PrependedInOrder(s[0], InsertText(t, rest));
    } else {
      forall x | x in s
        ensures !TextLess(x, t)
      {
        TextLessIsOrder(x, t, s[0]);
        TextLessIsOrder(t, s[0], x);
      }
      PrependedInOrder(t, s);
    }
  }

  lemma {:induction false} SortedTextMeaning(s: seq<string>)
    ensures InTextOrder(SortedText(s)) && multiset(SortedText(s)) == multiset(s)
  {
    if s != [] {
      SortedTextMeaning(s[1..]);
      assert s == [s[0]] + s[1..];
      InsertTextKeeps(s[0], SortedText(s[1..]));
    }
  }
}
