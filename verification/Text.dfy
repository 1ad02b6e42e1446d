/** The parts of Go's string library that the repository relies on. */
module Text {
  /** unicode.IsSpace. */
  predicate IsSpace(c: char) {
    || '\t' <= c <= '\r' || c == ' ' || c == '\U{85}' || c == '\U{A0}' || c == '\U{1680}'
    || '\U{2000}' <= c <= '\U{200A}' || c == '\U{2028}' || c == '\U{2029}' || c == '\U{202F}'
    || c == '\U{205F}' || c == '\U{3000}'
  }

  ghost predicate AllSpace(s: string) {
    forall c | c in s :: IsSpace(c)
  }

  predicate IsDigit(c: char) {
    '0' <= c <= '9'
  }

  predicate AllDigits(s: string) {
    forall i | 0 <= i < |s| :: IsDigit(s[i])
  }

  /** The decimal form of a number, as strconv writes it. */
  function Decimal(n: nat): (s: string)
    ensures s != "" && AllDigits(s)
  {
    if n < 10 then ['0' + n as char] else Decimal(n / 10) + ['0' + (n % 10) as char]
  }

  /** The number that a string of digits denotes. */
  function DecimalValue(s: string): nat
    requires AllDigits(s)
  {
    if s == "" then 0 else 10 * DecimalValue(s[..|s| - 1]) + (s[|s| - 1] as int - '0' as int)
  }

  lemma {:induction false} DecimalRoundTrip(n: nat)
    ensures DecimalValue(Decimal(n)) == n
  {
    if n < 10 {
      assert Decimal(n)[..0] == "";
    } else {
      DecimalRoundTrip(n / 10);
      assert Decimal(n)[..|Decimal(n)| - 1] == Decimal(n / 10);
    }
  }

  // ---------------------------------------------------------------- trimming, splitting, sorting

  function TrimLeft(s: string): string {
    if s != "" && IsSpace(s[0]) then TrimLeft(s[1..]) else s
  }

  function TrimRight(s: string): string {
    if s != "" && IsSpace(s[|s| - 1]) then TrimRight(s[..|s| - 1]) else s
  }

  /** strings.TrimSpace. */
  function Trim(s: string): string {
    TrimRight(TrimLeft(s))
  }

  /** strings.Split(s, ","). */
  function SplitComma(s: string): (parts: seq<string>)
    ensures parts != []
  {
    if s == "" then [""]
    else
      var rest := SplitComma(s[1..]);
      if s[0] == ',' then [""] + rest else [[s[0]] + rest[0]] + rest[1..]
  }

  /** Of the characters below 128, six are space. */
  lemma AsciiSpaces(c: char)
    requires c as int < 128
    ensures IsSpace(c) <==> c as int == 32 || 9 <= c as int <= 13
  {
  }

  /** Text that neither begins nor ends with space. */
  predicate Edgeless(s: string) {
    s == "" || (!IsSpace(s[0]) && !IsSpace(s[|s| - 1]))
  }

  /** `s` is `t` with space before and after it. */
  ghost predicate Padded(s: string, pre: string, t: string, post: string) {
    s == pre + t + post && AllSpace(pre) && AllSpace(post)
  }

  lemma {:induction false} TrimLeftSplits(s: string) returns (pre: string)
    ensures s == pre + TrimLeft(s) && AllSpace(pre)
    ensures TrimLeft(s) == "" || !IsSpace(TrimLeft(s)[0])
  {
    pre := "";
    if s != "" && IsSpace(s[0]) {
      var rest := TrimLeftSplits(s[1..]);
      pre := [s[0]] + rest;
      assert s == [s[0]] + s[1..];
    }
  }

  lemma {:induction false} TrimRightSplits(s: string) returns (post: string)
    ensures s == TrimRight(s) + post && AllSpace(post)
    ensures TrimRight(s) == "" || !IsSpace(TrimRight(s)[|TrimRight(s)| - 1])
  {
    post := "";
    if s != "" && IsSpace(s[|s| - 1]) {
      var rest := TrimRightSplits(s[..|s| - 1]);
      post := rest + [s[|s| - 1]];
      assert s == s[..|s| - 1] + [s[|s| - 1]];
    }
  }

  lemma {:induction false} TrimLeftOf(pre: string, u: string)
    requires AllSpace(pre) && (u == "" || !IsSpace(u[0]))
    ensures TrimLeft(pre + u) == u
  {
    if pre == "" {
      assert pre + u == u;
    } else {
      assert IsSpace(pre[0]) && (pre + u)[0] == pre[0];
      assert (pre + u)[1..] == pre[1..] + u;
      TrimLeftOf(pre[1..], u);
    }
  }

  lemma {:induction false} TrimRightOf(t: string, post: string)
    requires AllSpace(post) && (t == "" || !IsSpace(t[|t| - 1]))
    ensures TrimRight(t + post) == t
  {
    if post == "" {
      assert t + post == t;
    } else {
      var n := |post| - 1;
      assert IsSpace(post[n]) && (t + post)[|t + post| - 1] == post[n];
      assert (t + post)[..|t + post| - 1] == t + post[..n];
      TrimRightOf(t, post[..n]);
    }
  }

  lemma TrimOf(pre: string, t: string, post: string)
    requires AllSpace(pre) && AllSpace(post) && Edgeless(t)
    ensures Trim(pre + t + post) == t
  {
    if t == "" {
      assert pre + t + post == (pre + post) + "";
      TrimLeftOf(pre + post, "");
    } else {
      assert pre + t + post == pre + (t + post);
      TrimLeftOf(pre, t + post);
      TrimRightOf(t, post);
    }
  }

  /** Trimming takes away the space around a text, all of it and nothing else. */
  lemma TrimExactly(s: string, t: string)
    ensures Trim(s) == t <==> Edgeless(t) && exists pre, post :: Padded(s, pre, t, post)
  {
    var pre := TrimLeftSplits(s);
    var post := TrimRightSplits(TrimLeft(s));
    assert Trim(s) != "" ==> Trim(s)[0] == TrimLeft(s)[0];
    assert s == pre + Trim(s) + post;
    assert Padded(s, pre, Trim(s), post);
    forall before, after | Edgeless(t) && Padded(s, before, t, after)
      ensures Trim(s) == t
    {
      TrimOf(before, t, after);
    }
  }

  /** `part` stands in `s` between commas, or at its ends. */
  ghost predicate Cut(s: string, a: string, part: string, b: string) {
    && s == a + part + b && ',' !in part
    && (a == "" || a[|a| - 1] == ',') && (b == "" || b[0] == ',')
  }

  lemma {:induction false} PartIsCut(s: string, i: nat) returns (a: string, b: string)
    requires i < |SplitComma(s)|
    ensures Cut(s, a, SplitComma(s)[i], b) && (i == 0 ==> a == "") && (i > 0 ==> a != "")
  {
    a, b := "", "";
    if s != "" {
      var rest := SplitComma(s[1..]);
      assert s == [s[0]] + s[1..];
      if s[0] == ',' {
        if i == 0 {
          b := s;
        } else {
          a, b := PartIsCut(s[1..], i - 1);
          a := [','] + a;
        }
      } else {
        var a', b' := PartIsCut(s[1..], i);
        b := b';
        if i > 0 {
          a := [s[0]] + a';
        }
      }
    }
  }

  lemma {:induction false} CutIsPart(s: string, a: string, part: string, b: string) returns (i: nat)
    requires Cut(s, a, part, b)
    ensures i < |SplitComma(s)| && SplitComma(s)[i] == part && (a != "" ==> i > 0) && (a == "" ==> i == 0)
    decreases |s|
  {
    if s == "" {
      return 0;
    }
    var t := s[1..];
    if a != "" {
      assert t == a[1..] + part + b;
      if a[1..] != "" {
        assert a[1..][|a[1..]| - 1] == a[|a| - 1];
      }
      i := CutIsPart(t, a[1..], part, b);
      if s[0] == ',' {
        i := i + 1;
      }
    } else if part != "" {
      assert t == "" + part[1..] + b;
      i := CutIsPart(t, "", part[1..], b);
      assert part == [s[0]] + part[1..];
    } else {
      assert s[0] == ',';
      i := 0;
    }
  }

  /** Splitting at commas gives exactly the texts that stand between commas. */
  lemma SplitCommaExactly(s: string, part: string)
    ensures part in SplitComma(s) <==> exists a, b :: Cut(s, a, part, b)
  {
    if part in SplitComma(s) {
      var i :| 0 <= i < |SplitComma(s)| && SplitComma(s)[i] == part;
      var a, b := PartIsCut(s, i);
    }
    forall a, b | Cut(s, a, part, b)
      ensures part in SplitComma(s)
    {
      var i := CutIsPart(s, a, part, b);
    }
  }

  ghost predicate ElementAt(s: string, a: string, pre: string, element: string, post: string, b: string) {
    Cut(s, a, pre + element + post, b) && AllSpace(pre) && AllSpace(post) && Edgeless(element)
  }

  /** `element` is one of a list that is separated by commas, with any space around it. */
  ghost predicate Listed(s: string, element: string) {
    exists a, pre, post, b :: ElementAt(s, a, pre, element, post, b)
  }

  /** The parts of a list, trimmed, are exactly its elements. */
  lemma ListedExactly(s: string, element: string)
    ensures Listed(s, element) <==> exists part :: part in SplitComma(s) && Trim(part) == element
  {
    forall a, pre, post, b | ElementAt(s, a, pre, element, post, b)
      ensures exists part :: part in SplitComma(s) && Trim(part) == element
    {
      SplitCommaExactly(s, pre + element + post);
      TrimOf(pre, element, post);
    }
    forall part | part in SplitComma(s) && Trim(part) == element
      ensures Listed(s, element)
    {
      SplitCommaExactly(s, part);
      TrimExactly(part, element);
      var a, b :| Cut(s, a, part, b);
      var pre, post :| Padded(part, pre, element, post);
      assert ElementAt(s, a, pre, element, post, b);
    }
  }

  /** The order in which Go compares strings. */
  predicate LexLeq(a: string, b: string) {
    a == "" || (b != "" && (a[0] < b[0] || (a[0] == b[0] && LexLeq(a[1..], b[1..]))))
  }

  /** At index `i` the texts first differ, and `a` has the smaller character there. */
  ghost predicate SmallerAt(a: string, b: string, i: nat) {
    i < |a| && i < |b| && a[..i] == b[..i] && a[i] < b[i]
  }

  lemma {:induction false} LexLeqExactly(a: string, b: string)
    ensures LexLeq(a, b) <==> a <= b || exists i: nat :: SmallerAt(a, b, i)
  {
    if a != "" && b != "" {
      var s, t := a[1..], b[1..];
      LexLeqExactly(s, t);
      assert a == [a[0]] + s && b == [b[0]] + t;
      if a[0] < b[0] {
        assert SmallerAt(a, b, 0);
      }
      forall i: nat | SmallerAt(s, t, i) && a[0] == b[0]
        ensures SmallerAt(a, b, i + 1)
      {
        assert a[..i + 1] == [a[0]] + s[..i] && b[..i + 1] == [b[0]] + t[..i];
      }
      forall i: nat | SmallerAt(a, b, i) && i > 0
        ensures SmallerAt(s, t, i - 1) && a[0] == b[0]
      {
        assert a[0] == a[..i][0] && b[0] == b[..i][0];
        assert s[..i - 1] == a[..i][1..] && t[..i - 1] == b[..i][1..];
      }
    }
  }

  lemma {:induction false} LexTotal(a: string, b: string)
    ensures LexLeq(a, b) || LexLeq(b, a)
    ensures LexLeq(a, b) && LexLeq(b, a) ==> a == b
  {
    if a != "" && b != "" && a[0] == b[0] {
      LexTotal(a[1..], b[1..]);
      if a[1..] == b[1..] {
        assert a == [a[0]] + a[1..] && b == [b[0]] + b[1..];
      }
    }
  }

  lemma {:induction false} LexTransitive(a: string, b: string, c: string)
    requires LexLeq(a, b) && LexLeq(b, c)
    ensures LexLeq(a, c)
  {
    if a != "" && a[0] == b[0] == c[0] {
      LexTransitive(a[1..], b[1..], c[1..]);
    }
  }

  ghost predicate LeqAll(x: string, s: seq<string>) {
    forall y | y in s :: LexLeq(x, y)
  }

  ghost predicate Ordered(s: seq<string>) {
    s == [] || (LeqAll(s[0], s[1..]) && Ordered(s[1..]))
  }

  function Insert(x: string, s: seq<string>): seq<string> {
    if s == [] || LexLeq(x, s[0]) then [x] + s else [s[0]] + Insert(x, s[1..])
  }

  /** slices.Sort. */
  function Sort(s: seq<string>): seq<string> {
    if s == [] then [] else Insert(s[0], Sort(s[1..]))
  }

  lemma {:induction false} InsertAdds(x: string, s: seq<string>)
    ensures multiset(Insert(x, s)) == multiset(s) + multiset{x}
  {
    if s != [] && !LexLeq(x, s[0]) {
      InsertAdds(x, s[1..]);
      assert s == [s[0]] + s[1..];
    }
  }

  lemma {:induction false} InsertKeepsOrder(x: string, s: seq<string>)
    requires Ordered(s)
    ensures Ordered(Insert(x, s))
  {
    if s != [] {
      if LexLeq(x, s[0]) {
        forall y | y in s
          ensures LexLeq(x, y)
        {
          if y != s[0] {
            assert y in s[1..];
            LexTransitive(x, s[0], y);
          }
        }
        assert ([x] + s)[1..] == s;
      } else {
        var rest := Insert(x, s[1..]);
        LexTotal(x, s[0]);
        InsertKeepsOrder(x, s[1..]);
        InsertAdds(x, s[1..]);
        forall y | y in rest
          ensures LexLeq(s[0], y)
        {
          assert y in multiset(rest);
          assert y == x || y in multiset(s[1..]);
        }
        assert ([s[0]] + rest)[1..] == rest;
      }
    }
  }

  lemma {:induction false} SortSorts(s: seq<string>)
    ensures Ordered(Sort(s)) && multiset(Sort(s)) == multiset(s)
  {
    if s != [] {
      assert s == [s[0]] + s[1..];
      SortSorts(s[1..]);
      InsertAdds(s[0], Sort(s[1..]));
      InsertKeepsOrder(s[0], Sort(s[1..]));
    }
  }

  lemma TailOf(s: seq<string>)
    requires s != []
    ensures multiset(s) == multiset(s[1..]) + multiset{s[0]}
  {
    assert s == [s[0]] + s[1..];
  }

  lemma SameTails(a: seq<string>, b: seq<string>)
    requires a != [] && b != [] && a[0] == b[0] && multiset(a) == multiset(b)
    ensures multiset(a[1..]) == multiset(b[1..])
  {
    TailOf(a);
    TailOf(b);
    assert multiset(a[1..]) == multiset(a) - multiset{a[0]};
    assert multiset(b[1..]) == multiset(b) - multiset{b[0]};
  }

  lemma OrderedHeads(a: seq<string>, b: seq<string>)
    requires a != [] && b != [] && Ordered(a) && Ordered(b) && multiset(a) == multiset(b)
    ensures a[0] == b[0]
  {
    TailOf(a);
    TailOf(b);
    assert a[0] in multiset(b) && b[0] in multiset(a);
    assert a[0] == b[0] || a[0] in multiset(b[1..]);
    assert a[0] == b[0] || b[0] in multiset(a[1..]);
    LexTotal(a[0], b[0]);
  }

  /** There is only one ordered arrangement of given strings. */
  lemma {:induction false} OrderedUnique(a: seq<string>, b: seq<string>)
    requires Ordered(a) && Ordered(b) && multiset(a) == multiset(b)
    ensures a == b
  {
    assert |multiset(a)| == |multiset(b)|;
    if a != [] {
      OrderedHeads(a, b);
      SameTails(a, b);
      OrderedUnique(a[1..], b[1..]);
      assert a == [a[0]] + a[1..] && b == [b[0]] + b[1..];
    }
  }

  // ---------------------------------------------------------------- mapping

  ghost function Mapped<T, U>(f: T -> U, s: seq<T>): seq<U> {
    seq(|s|, i requires 0 <= i < |s| => f(s[i]))
  }

  lemma TakeOut<T>(s: seq<T>, i: nat)
    requires i < |s|
    ensures multiset(s) == multiset(s[..i] + s[i + 1..]) + multiset{s[i]}
  {
    assert s == s[..i] + ([s[i]] + s[i + 1..]);
    assert multiset(s) == multiset(s[..i]) + (multiset{s[i]} + multiset(s[i + 1..]));
  }

  lemma MappedTakeOut<T, U>(f: T -> U, s: seq<T>, i: nat)
    requires i < |s|
    ensures multiset(Mapped(f, s)) == multiset(Mapped(f, s[..i] + s[i + 1..])) + multiset{f(s[i])}
  {
    var m := Mapped(f, s);
    TakeOut(m, i);
    assert Mapped(f, s[..i] + s[i + 1..]) == m[..i] + m[i + 1..];
  }

  lemma SameWithout<T>(a: seq<T>, b: seq<T>, i: nat)
    requires a != [] && i < |b| && b[i] == a[0] && multiset(a) == multiset(b)
    ensures multiset(a[..0] + a[1..]) == multiset(b[..i] + b[i + 1..])
  {
    TakeOut(a, 0);
    TakeOut(b, i);
    assert multiset(a[..0] + a[1..]) == multiset(a) - multiset{a[0]};
    assert multiset(b[..i] + b[i + 1..]) == multiset(b) - multiset{b[i]};
  }

  /** What a sequence is mapped to, and how often, does not depend on its order. */
  lemma {:induction false} MappedIgnoresOrder<T, U>(f: T -> U, a: seq<T>, b: seq<T>)
    requires multiset(a) == multiset(b)
    ensures multiset(Mapped(f, a)) == multiset(Mapped(f, b))
    decreases |a|
  {
    assert |multiset(a)| == |multiset(b)|;
    if a != [] {
      assert a[0] in multiset(b);
      var i :| 0 <= i < |b| && b[i] == a[0];
      SameWithout(a, b, i);
      MappedTakeOut(f, a, 0);
      MappedTakeOut(f, b, i);
      MappedIgnoresOrder(f, a[..0] + a[1..], b[..i] + b[i + 1..]);
    }
  }
}
