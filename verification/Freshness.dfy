/** Whether and until when a response may be stored: Cache-Control, status, Vary. */
module Freshness {
  import opened Headers
  import opened Text
  import opened Wrappers

  /** Nanoseconds. */
  type Time = int

  const SECOND: int := 1_000_000_000

  const MAX_INT64: int := 0x7FFF_FFFF_FFFF_FFFF

  /** The largest max-age whose length in nanoseconds is an int64. */
  const MAX_EXACT_AGE: int := 9_223_372_036

  /** What int64 arithmetic makes of a product. */
  function Wrap64(x: int): int {
    (x + 0x8000_0000_0000_0000) % 0x1_0000_0000_0000_0000 - 0x8000_0000_0000_0000
  }

  /** What time.Sub makes of a difference. */
  function Saturate64(x: int): int {
    if x > MAX_INT64 then MAX_INT64 else if x < -MAX_INT64 - 1 then -MAX_INT64 - 1 else x
  }

  // ---------------------------------------------------------------- the regular expressions

  predicate IsWordChar(c: char) {
    IsDigit(c) || IsLower(c) || IsUpper(c) || c == '_'
  }

  predicate Boundary(s: string, i: nat)
    requires i <= |s|
  {
    (i > 0 && IsWordChar(s[i - 1])) != (i < |s| && IsWordChar(s[i]))
  }

  predicate OccursAt(s: string, word: string, i: nat) {
    i + |word| <= |s| && s[i..i + |word|] == word
  }

  predicate WordAt(s: string, word: string, i: nat) {
    OccursAt(s, word, i) && Boundary(s, i) && Boundary(s, i + |word|)
  }

  /** A word between word boundaries. */
  predicate HasWord(s: string, word: string) {
    exists i: nat | i <= |s| :: WordAt(s, word, i)
  }

  function DigitsAt(s: string, i: nat): (digits: string)
    requires i <= |s|
    ensures AllDigits(digits) && i + |digits| <= |s|
    decreases |s| - i
  {
    if i < |s| && IsDigit(s[i]) then [s[i]] + DigitsAt(s, i + 1) else ""
  }

  /** A name, its digits, and a boundary on either side. All the digits: between two of them is no boundary. */
  predicate DirectiveAt(s: string, name: string, i: nat) {
    && OccursAt(s, name, i) && Boundary(s, i)
    && var digits := DigitsAt(s, i + |name|);
       digits != "" && Boundary(s, i + |name| + |digits|)
  }

  /** The digits of the first match from position `i` on. */
  function Directive(s: string, name: string, i: nat): (digits: Option<string>)
    requires i <= |s|
    ensures digits.Some? ==> AllDigits(digits.value)
    decreases |s| - i
  {
    if DirectiveAt(s, name, i) then Some(DigitsAt(s, i + |name|))
    else if i == |s| then None
    else Directive(s, name, i + 1)
  }

  /** strconv.Atoi on digits. */
  function Atoi(digits: string): Option<int>
    requires AllDigits(digits)
  {
    if DecimalValue(digits) > MAX_INT64 then None else Some(DecimalValue(digits))
  }

  /** The max-age in seconds that makes a response storable, if its Cache-Control allows storing. */
  function MaxAge(cc: string): (age: Option<int>)
    ensures age.Some? ==> 0 < age.value <= MAX_INT64 && HasWord(cc, "public") && !HasWord(cc, "no-cache")
  {
    if !HasWord(cc, "public") || HasWord(cc, "no-cache") then None
    else
      var matches := match Directive(cc, "s-max-age=", 0)
                     case Some(digits) => Some(digits)
                     case None => Directive(cc, "max-age=", 0);
      if matches.None? then None
      else
        var age := Atoi(matches.value);
        if age.None? || age.value <= 0 then None else age
  }

  /** Until when a response that is complete at `now` may be stored. */
  function CacheStatus(overflowed: bool, status: int, header: Header, now: Time): (expires: Option<Time>)
    ensures expires.Some? ==>
              && !overflowed && 200 <= status <= 399 && status != 304 && '*' !in Get(header, VARY)
              && HasWord(Get(header, CACHE_CONTROL), "public") && !HasWord(Get(header, CACHE_CONTROL), "no-cache")
              && MaxAge(Get(header, CACHE_CONTROL)).Some?
              && expires.value <= now + MaxAge(Get(header, CACHE_CONTROL)).value * SECOND
              && expires.value <= now + MAX_INT64
  {
    if overflowed then None
    else if status < 200 || status > 399 || status == 304 then None
    else if '*' in Get(header, VARY) then None
    else
      match MaxAge(Get(header, CACHE_CONTROL))
      case None => None
      case Some(age) =>
        WrapNeverAdds(age * SECOND);
        Some(now + Wrap64(age * SECOND))
  }

  // ---------------------------------------------------------------- what the expressions match

  /** `s` is `p`, `t` and `q`, and `t` is not part of a longer run of word characters. */
  ghost predicate StandsAlone(s: string, p: string, t: string, q: string) {
    s == p + t + q && NoWordEnds(p) && NoWordBegins(q)
  }

  predicate NoWordEnds(p: string) {
    p == "" || !IsWordChar(p[|p| - 1])
  }

  predicate NoWordBegins(q: string) {
    q == "" || !IsWordChar(q[0])
  }

  lemma WordStands(s: string, word: string, i: nat)
    requires word != "" && IsWordChar(word[0]) && IsWordChar(word[|word| - 1]) && WordAt(s, word, i)
    ensures StandsAlone(s, s[..i], word, s[i + |word|..])
  {
    var n := |word|;
    assert s == s[..i] + s[i..i + n] + s[i + n..];
    assert s[i] == s[i..i + n][0] && s[i + n - 1] == s[i..i + n][n - 1];
  }

  lemma StandingIsWord(s: string, p: string, word: string, q: string)
    requires word != "" && IsWordChar(word[0]) && IsWordChar(word[|word| - 1]) && StandsAlone(s, p, word, q)
    ensures WordAt(s, word, |p|)
  {
    var i, n := |p|, |word|;
    assert s[i..i + n] == word;
    assert s[i] == word[0] && s[i + n - 1] == word[n - 1];
    assert p != "" ==> s[i - 1] == p[i - 1];
    assert q != "" ==> s[i + n] == q[0];
  }

  /** A text has a word exactly when the word stands in it by itself. */
  lemma HasWordExactly(s: string, word: string)
    requires word != "" && IsWordChar(word[0]) && IsWordChar(word[|word| - 1])
    ensures HasWord(s, word) <==> exists p, q :: StandsAlone(s, p, word, q)
  {
    if HasWord(s, word) {
      var i: nat :| i <= |s| && WordAt(s, word, i);
      WordStands(s, word, i);
    }
    forall p, q | StandsAlone(s, p, word, q)
      ensures HasWord(s, word)
    {
      StandingIsWord(s, p, word, q);
    }
  }

  /** It does not have a word that is only part of a longer one. */
  lemma NotInALongerWord(s: string, word: string)
    requires word != "" && s != word && forall i | 0 <= i < |s| :: IsWordChar(s[i])
    requires IsWordChar(word[0]) && IsWordChar(word[|word| - 1])
    ensures !HasWord(s, word)
  {
    HasWordExactly(s, word);
    forall p, q | s == p + word + q
      ensures !StandsAlone(s, p, word, q)
    {
      assert p == "" && q == "" ==> p + word + q == word;
      assert p != "" ==> s[|p| - 1] == p[|p| - 1];
      assert q != "" ==> s[|p + word|] == q[0];
    }
  }

  /** A directive in a text: its name, which no word character precedes, and all its digits, which none follows. */
  ghost predicate DirectiveIn(s: string, p: string, name: string, digits: string, q: string) {
    digits != "" && AllDigits(digits) && s == p + (name + digits) + q && NoWordEnds(p) && NoWordBegins(q)
  }

  lemma {:induction false} AllTheDigits(s: string, i: nat, digits: string)
    requires i + |digits| <= |s| && s[i..i + |digits|] == digits && AllDigits(digits)
    requires i + |digits| == |s| || !IsDigit(s[i + |digits|])
    ensures DigitsAt(s, i) == digits
    decreases |digits|
  {
    if digits != "" {
      assert s[i] == digits[0];
      assert s[i + 1..i + |digits|] == digits[1..];
      AllTheDigits(s, i + 1, digits[1..]);
    }
  }

  lemma {:induction false} DigitsAreThere(s: string, i: nat)
    requires i <= |s|
    ensures s[i..i + |DigitsAt(s, i)|] == DigitsAt(s, i)
    decreases |s| - i
  {
    if i < |s| && IsDigit(s[i]) {
      DigitsAreThere(s, i + 1);
    }
  }

  lemma PartsAt(s: string, p: string, name: string, digits: string, q: string)
    requires s == p + (name + digits) + q
    ensures var k := |p| + |name|;
            && s[|p|..k] == name && s[k..k + |digits|] == digits
            && (p != "" ==> s[|p| - 1] == p[|p| - 1]) && (q != "" ==> s[k + |digits|] == q[0])
  {
    var text := name + digits;
    assert s[|p|..|p| + |text|] == text;
    assert s[|p|..|p| + |name|] == text[..|name|];
    assert s[|p| + |name|..|p| + |text|] == text[|name|..];
  }

  lemma DigitsIn(s: string, p: string, name: string, digits: string, q: string)
    requires DirectiveIn(s, p, name, digits, q)
    ensures DigitsAt(s, |p| + |name|) == digits
  {
    PartsAt(s, p, name, digits, q);
    AllTheDigits(s, |p| + |name|, digits);
  }

  lemma DirectiveInIsAt(s: string, p: string, name: string, digits: string, q: string)
    requires name != "" && IsWordChar(name[0]) && DirectiveIn(s, p, name, digits, q)
    ensures DirectiveAt(s, name, |p|) && DigitsAt(s, |p| + |name|) == digits
  {
    var i, k := |p|, |p| + |name|;
    PartsAt(s, p, name, digits, q);
    DigitsIn(s, p, name, digits, q);
    assert s[i] == s[i..k][0] && s[k + |digits| - 1] == s[k..k + |digits|][|digits| - 1];
  }

  lemma InParts(s: string, i: nat, k: nat, n: nat)
    requires i <= k <= n <= |s|
    ensures s == s[..i] + (s[i..k] + s[k..n]) + s[n..]
  {
  }

  /** Boundaries on either side of a stretch whose ends are word characters. */
  lemma StretchStands(s: string, i: nat, n: nat)
    requires i < n <= |s| && Boundary(s, i) && Boundary(s, n) && IsWordChar(s[i]) && IsWordChar(s[n - 1])
    ensures NoWordEnds(s[..i]) && NoWordBegins(s[n..])
  {
  }

  lemma DirectiveAtIsIn(s: string, name: string, i: nat)
    requires name != "" && IsWordChar(name[0]) && DirectiveAt(s, name, i)
    ensures var k := i + |name|; var n := k + |DigitsAt(s, k)|;
            DirectiveIn(s, s[..i], name, DigitsAt(s, k), s[n..])
  {
    var k := i + |name|;
    var digits := DigitsAt(s, k);
    var n := k + |digits|;
    DigitsAreThere(s, k);
    assert s[i] == s[i..k][0] && s[n - 1] == s[k..n][|digits| - 1];
    StretchStands(s, i, n);
    InParts(s, i, k, n);
  }

  /** A directive that no other of the same name comes before. */
  ghost predicate FirstDirectiveIn(s: string, p: string, name: string, digits: string, q: string) {
    && DirectiveIn(s, p, name, digits, q)
    && forall p', digits', q' | DirectiveIn(s, p', name, digits', q') :: |p| <= |p'|
  }

  ghost predicate HasDirective(s: string, name: string) {
    exists p, digits, q :: DirectiveIn(s, p, name, digits, q)
  }

  lemma {:induction false} DirectiveFinds(s: string, name: string, i: nat) returns (at: nat)
    requires i <= |s|
    ensures Directive(s, name, i).None? ==> forall k: nat | i <= k <= |s| :: !DirectiveAt(s, name, k)
    ensures Directive(s, name, i).Some? ==>
              && i <= at && DirectiveAt(s, name, at) && Directive(s, name, i) == Some(DigitsAt(s, at + |name|))
              && forall k: nat | i <= k < at :: !DirectiveAt(s, name, k)
    decreases |s| - i
  {
    if DirectiveAt(s, name, i) || i == |s| {
      at := i;
    } else {
      at := DirectiveFinds(s, name, i + 1);
    }
  }

  /** The digits that are found are those of the first such directive, if there is one. */
  lemma DirectiveExactly(s: string, name: string)
    requires name != "" && IsWordChar(name[0])
    ensures Directive(s, name, 0).Some? <==> HasDirective(s, name)
    ensures forall p, digits, q | FirstDirectiveIn(s, p, name, digits, q) :: Directive(s, name, 0) == Some(digits)
  {
    var at := DirectiveFinds(s, name, 0);
    forall p, digits, q | DirectiveIn(s, p, name, digits, q)
      ensures Directive(s, name, 0).Some? && at <= |p|
      ensures |p| == at ==> Directive(s, name, 0) == Some(digits)
    {
      DirectiveInIsAt(s, p, name, digits, q);
    }
    if Directive(s, name, 0).Some? {
      DirectiveAtIsIn(s, name, at);
      assert |s[..at]| == at;
    }
  }

  // ---------------------------------------------------------------- what may be stored, exactly

  const S_MAX_AGE := "s-max-age="
  const MAX_AGE := "max-age="

  /** The digits that give a lifetime: of the first s-max-age directive or, if there is none, the first max-age. */
  ghost predicate LifetimeIn(cc: string, digits: string) {
    if HasDirective(cc, S_MAX_AGE) then exists p, q :: FirstDirectiveIn(cc, p, S_MAX_AGE, digits, q)
    else exists p, q :: FirstDirectiveIn(cc, p, MAX_AGE, digits, q)
  }

  /** Cache-Control says `public` and not `no-cache`, and gives a lifetime, positive and within int64. */
  ghost predicate Allows(cc: string, age: int) {
    && (exists p, q :: StandsAlone(cc, p, "public", q)) && !(exists p, q :: StandsAlone(cc, p, "no-cache", q))
    && 0 < age <= MAX_INT64
    && exists digits :: LifetimeIn(cc, digits) && AllDigits(digits) && DecimalValue(digits) == age
  }

  lemma DirectiveIsLifetime(cc: string, name: string)
    requires name != "" && IsWordChar(name[0]) && Directive(cc, name, 0).Some?
    ensures exists p, q :: FirstDirectiveIn(cc, p, name, Directive(cc, name, 0).value, q)
  {
    var at := DirectiveFinds(cc, name, 0);
    var digits := DigitsAt(cc, at + |name|);
    DirectiveAtIsIn(cc, name, at);
    var p, q := cc[..at], cc[at + |name| + |digits|..];
    forall p', digits', q' | DirectiveIn(cc, p', name, digits', q')
      ensures |p| <= |p'|
    {
      DirectiveInIsAt(cc, p', name, digits', q');
    }
    assert FirstDirectiveIn(cc, p, name, digits, q);
  }

  lemma LifetimeExactly(cc: string, digits: string)
    ensures LifetimeIn(cc, digits) <==>
              Some(digits) == if Directive(cc, S_MAX_AGE, 0).Some? then Directive(cc, S_MAX_AGE, 0)
                              else Directive(cc, MAX_AGE, 0)
  {
    DirectiveExactly(cc, S_MAX_AGE);
    DirectiveExactly(cc, MAX_AGE);
    if Directive(cc, S_MAX_AGE, 0).Some? {
      DirectiveIsLifetime(cc, S_MAX_AGE);
    } else if Directive(cc, MAX_AGE, 0).Some? {
      DirectiveIsLifetime(cc, MAX_AGE);
    }
  }

  /** A max-age is read exactly where the text of Cache-Control allows it. */
  lemma MaxAgeExactly(cc: string, age: int)
    ensures MaxAge(cc) == Some(age) <==> Allows(cc, age)
  {
    HasWordExactly(cc, "public");
    HasWordExactly(cc, "no-cache");
    var matches := if Directive(cc, S_MAX_AGE, 0).Some? then Directive(cc, S_MAX_AGE, 0) else Directive(cc, MAX_AGE, 0);
    if matches.Some? {
      LifetimeExactly(cc, matches.value);
    }
    forall digits | LifetimeIn(cc, digits)
      ensures matches == Some(digits)
    {
      LifetimeExactly(cc, digits);
    }
  }

  /** A response may be stored exactly if it is whole, its status and Vary are fit, and its Cache-Control allows it. */
  lemma CacheStatusExactly(overflowed: bool, status: int, header: Header, now: Time)
    ensures CacheStatus(overflowed, status, header, now).Some? <==>
              && !overflowed && 200 <= status <= 399 && status != 304 && '*' !in Get(header, VARY)
              && exists age :: Allows(Get(header, CACHE_CONTROL), age)
  {
    var cc := Get(header, CACHE_CONTROL);
    if MaxAge(cc).Some? {
      MaxAgeExactly(cc, MaxAge(cc).value);
    }
    forall age | Allows(cc, age)
      ensures MaxAge(cc) == Some(age)
    {
      MaxAgeExactly(cc, age);
    }
  }

  // ---------------------------------------------------------------- the expiry is exact up to a bound

  lemma WrapNeverAdds(x: int)
    requires x >= 0
    ensures Wrap64(x) <= x
    ensures Wrap64(x) == x <==> x <= MAX_INT64
  {
  }

  /**
   A storable response expires exactly max-age seconds later if max-age is at most 9223372036, and sooner
   otherwise.
   */
  lemma ExpiryIsExactUpToTheBound(status: int, header: Header, now: Time)
    requires CacheStatus(false, status, header, now).Some?
    ensures var age := MaxAge(Get(header, CACHE_CONTROL)).value;
            var expires := CacheStatus(false, status, header, now).value;
            && (expires == now + age * SECOND <==> age <= MAX_EXACT_AGE)
            && expires <= now + age * SECOND
  {
    WrapNeverAdds(MaxAge(Get(header, CACHE_CONTROL)).value * SECOND);
  }

  /** The first value past the bound already wraps to an instant in the past. */
  lemma ExpiryWrapsPastTheBound(now: Time)
    ensures now + Wrap64((MAX_EXACT_AGE + 1) * SECOND) < now
  {
  }

  // ---------------------------------------------------------------- the directive is found

  lemma {:induction false} DigitsOfDecimal(prefix: string, digits: string, i: nat)
    requires AllDigits(digits) && |prefix| <= i <= |prefix| + |digits|
    ensures DigitsAt(prefix + digits, i) == digits[i - |prefix|..]
    decreases |digits| + |prefix| - i
  {
    var s := prefix + digits;
    if i < |s| {
      DigitsOfDecimal(prefix, digits, i + 1);
      assert s[i] == digits[i - |prefix|];
    }
  }

  lemma {:induction false} FirstDirective(s: string, name: string, i: nat, at: nat)
    requires i <= at <= |s|
    requires forall k: nat | i <= k < at :: !OccursAt(s, name, k)
    requires DirectiveAt(s, name, at)
    ensures Directive(s, name, i) == Some(DigitsAt(s, at + |name|))
    decreases at - i
  {
    if i < at {
      FirstDirective(s, name, i + 1, at);
    }
  }

  lemma {:induction false} NoDirective(s: string, name: string, i: nat)
    requires i <= |s|
    requires forall k: nat | i <= k <= |s| :: !OccursAt(s, name, k)
    ensures Directive(s, name, i) == None
    decreases |s| - i
  {
    if i < |s| {
      NoDirective(s, name, i + 1);
    }
  }

  lemma OccurrenceStarts(s: string, word: string, i: nat)
    requires word != ""
    ensures OccursAt(s, word, i) ==> s[i] == word[0]
  {
    if OccursAt(s, word, i) {
      assert s[i..i + |word|][0] == s[i];
    }
  }

  const PUBLIC_MAX_AGE := "public, max-age="

  /** Neither of the other two directives occurs in such a header, and the wanted one only where it was written. */
  lemma OnlyTheWrittenDirective(digits: string)
    requires AllDigits(digits)
    ensures var cc := PUBLIC_MAX_AGE + digits;
            && (forall i: nat :: !OccursAt(cc, "no-cache", i) && !OccursAt(cc, "s-max-age=", i))
            && (forall i: nat | i < 8 :: !OccursAt(cc, "max-age=", i))
  {
    var cc := PUBLIC_MAX_AGE + digits;
    forall i: nat
      ensures i < |cc| ==> cc[i] != 'n' && cc[i] != 's' && (i < 8 ==> cc[i] != 'm')
    {
      if |PUBLIC_MAX_AGE| <= i < |cc| {
        assert cc[i] == digits[i - |PUBLIC_MAX_AGE|];
      } else if i < |cc| {
        assert cc[i] == PUBLIC_MAX_AGE[i];
      }
    }
    forall i: nat
      ensures !OccursAt(cc, "no-cache", i) && !OccursAt(cc, "s-max-age=", i)
      ensures i < 8 ==> !OccursAt(cc, "max-age=", i)
    {
      OccurrenceStarts(cc, "no-cache", i);
      OccurrenceStarts(cc, "s-max-age=", i);
      OccurrenceStarts(cc, "max-age=", i);
    }
  }

  lemma WrittenDirectiveMatches(digits: string)
    requires AllDigits(digits) && digits != ""
    ensures var cc := PUBLIC_MAX_AGE + digits;
            && HasWord(cc, "public")
            && Directive(cc, "max-age=", 0) == Some(digits)
  {
    var cc, n := PUBLIC_MAX_AGE + digits, |PUBLIC_MAX_AGE|;
    assert cc[..n] == PUBLIC_MAX_AGE;
    assert cc[0..6] == PUBLIC_MAX_AGE[0..6] == "public";
    assert WordAt(cc, "public", 0);
    assert cc[8..16] == PUBLIC_MAX_AGE[8..16] == "max-age=";
    assert OccursAt(cc, "max-age=", 8) && Boundary(cc, 8);
    DigitsOfDecimal(PUBLIC_MAX_AGE, digits, n);
    assert digits[0..] == digits;
    assert cc[|cc| - 1] == digits[|digits| - 1];
    assert DirectiveAt(cc, "max-age=", 8);
    OnlyTheWrittenDirective(digits);
    FirstDirective(cc, "max-age=", 0, 8);
  }

  /** For every number of seconds, the header that an origin writes for it is read back as that number. */
  lemma MaxAgeReadsBack(n: nat)
    requires 0 < n <= MAX_INT64
    ensures MaxAge(PUBLIC_MAX_AGE + Decimal(n)) == Some(n)
  {
    var cc := PUBLIC_MAX_AGE + Decimal(n);
    WrittenDirectiveMatches(Decimal(n));
    OnlyTheWrittenDirective(Decimal(n));
    NoDirective(cc, "s-max-age=", 0);
    DecimalRoundTrip(n);
  }

  lemma NoLetterInDigits(prefix: string, digits: string, c: char, i: nat)
    requires AllDigits(digits) && !IsDigit(c) && c !in prefix && i < |prefix + digits|
    ensures (prefix + digits)[i] != c
  {
    if i < |prefix| {
      assert (prefix + digits)[i] == prefix[i];
    } else {
      assert (prefix + digits)[i] == digits[i - |prefix|];
    }
  }

  lemma PrivateHasNoPublic(digits: string)
    requires AllDigits(digits)
    ensures !HasWord("private, max-age=" + digits, "public")
  {
    var cc := "private, max-age=" + digits;
    forall i: nat
      ensures !OccursAt(cc, "public", i)
    {
      if i + 6 <= |cc| {
        NoLetterInDigits("private, max-age=", digits, 'b', i + 2);
        assert cc[i..i + 6][2] == cc[i + 2];
      }
    }
  }

  lemma NoCacheStands(digits: string)
    ensures HasWord("public, no-cache, max-age=" + digits, "no-cache")
  {
    var cc, q := "public, no-cache, max-age=" + digits, ", max-age=" + digits;
    assert "public, " + "no-cache" + ", max-age=" == "public, no-cache, max-age=";
    assert cc == "public, " + "no-cache" + q;
    StandingIsWord(cc, "public, ", "no-cache", q);
  }

  /** Neither a private answer nor one that must be revalidated may be stored, whatever its lifetime. */
  lemma PrivateAndNoCacheAreRefused(digits: string)
    requires AllDigits(digits)
    ensures MaxAge("private, max-age=" + digits).None? && MaxAge("public, no-cache, max-age=" + digits).None?
  {
    PrivateHasNoPublic(digits);
    NoCacheStands(digits);
  }
}
