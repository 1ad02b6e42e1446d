/** The request characteristics that decide which stored response may answer a request. */
module Variants {
  import opened Headers
  import opened Text

  type CacheKey = nat

  /** `query` is the encoded query; strings stand for byte strings. */
  datatype Request = Request(method_: string, path: string, query: string, host: string, header: Header)

  // ---------------------------------------------------------------- values

  function CanonicalNames(parts: seq<string>): seq<string> {
    seq(|parts|, i requires 0 <= i < |parts| => Canonical(Trim(parts[i])))
  }

  /** The header names that a Vary field lists, in canonical form and in order. */
  function VaryNames(list: string): seq<string> {
    if list == "" then [] else Sort(CanonicalNames(SplitComma(list)))
  }

  function NamesIn(response: Header): seq<string> {
    VaryNames(Get(response, VARY))
  }

  function Suffix(r: Request, names: seq<string>): string {
    if names == [] then ""
    else Suffix(r, names[..|names| - 1]) + (names[|names| - 1] + "=" + Get(r.header, names[|names| - 1]))
  }

  lemma ConcatIsAssociative(a: string, b: string, c: string)
    ensures a + (b + c) == a + b + c
  {
  }

  lemma SuffixGrows(r: Request, names: seq<string>, i: nat, before: string)
    requires i < |names|
    ensures before + Suffix(r, names[..i + 1])
         == before + Suffix(r, names[..i]) + (names[i] + "=" + Get(r.header, names[i]))
  {
    var part := names[i] + "=" + Get(r.header, names[i]);
    assert names[..i + 1][..i] == names[..i];
    ConcatIsAssociative(before, Suffix(r, names[..i]), part);
  }

  /** The bytes that are hashed into a cache key; nothing separates the parts. */
  function Material(r: Request, names: seq<string>): string {
    r.method_ + r.path + r.query + r.host + Suffix(r, names)
  }

  function ValuesOf(r: Request, names: seq<string>): Header {
    if names == [] then map[]
    else Set(ValuesOf(r, names[..|names| - 1]), names[|names| - 1], Get(r.header, names[|names| - 1]))
  }

  datatype Target = Target(method_: string, path: string, query: string, host: string)

  function TargetOf(r: Request): Target {
    Target(r.method_, r.path, r.query, r.host)
  }

  ghost predicate SameTarget(a: Request, b: Request) {
    TargetOf(a) == TargetOf(b)
  }

  /** Two requests have the same value for every listed header. */
  ghost predicate Agree(names: seq<string>, a: Request, b: Request) {
    forall n | n in names :: Get(a.header, n) == Get(b.header, n)
  }

  /** What `Matches` decides of a header map and a request. */
  ghost predicate Fits(names: seq<string>, values: Header, r: Request) {
    forall n | n in names :: Get(values, n) == Get(r.header, n)
  }

  // ---------------------------------------------------------------- the source's object

  class Variant {
    const r: Request
    var headerNames: seq<string>

    constructor (r: Request)
      ensures this.r == r && headerNames == []
    {
      this.r, headerNames := r, [];
    }

    method SetResponseHeader(header: Header)
      modifies this
      ensures headerNames == NamesIn(header)
    {
      headerNames := ParseVaryHeader(header);
    }

    method ApplyHeaderNames(names: seq<string>)
      modifies this
      ensures headerNames == names
    {
      if |names| == 0 {
        headerNames := [];
        return;
      }
      headerNames := names;
    }

    /** `hash` is the hash of everything written to it, one write after the other. */
    method CacheKey(hash: string -> CacheKey) returns (key: CacheKey)
      ensures key == hash(Material(r, headerNames))
    {
      var written := r.method_;
      written := written + r.path;
      written := written + r.query;
      written := written + r.host;
      ghost var target := written;
      for i := 0 to |headerNames|
        invariant written == target + Suffix(r, headerNames[..i])
      {
        var name := headerNames[i];
        SuffixGrows(r, headerNames, i, target);
        written := written + (name + "=" + Get(r.header, name));
      }
      assert headerNames[..|headerNames|] == headerNames;
      key := hash(written);
    }

    method Matches(responseHeader: Header) returns (ok: bool)
      ensures ok <==> Fits(headerNames, responseHeader, r)
    {
      for i := 0 to |headerNames|
        invariant forall n | n in headerNames[..i] :: Get(responseHeader, n) == Get(r.header, n)
      {
        if Get(responseHeader, headerNames[i]) != Get(r.header, headerNames[i]) {
          assert headerNames[i] in headerNames;
          return false;
        }
      }
      assert headerNames[..|headerNames|] == headerNames;
      ok := true;
    }

    method VariantHeader() returns (header: Header)
      ensures header == ValuesOf(r, headerNames)
    {
      header := map[];
      for i := 0 to |headerNames|
        invariant header == ValuesOf(r, headerNames[..i])
      {
        assert headerNames[..i + 1][..i] == headerNames[..i];
        header := Set(header, headerNames[i], Get(r.header, headerNames[i]));
      }
      assert headerNames[..|headerNames|] == headerNames;
    }

    method ParseVaryHeader(responseHeader: Header) returns (names: seq<string>)
      ensures names == NamesIn(responseHeader)
      ensures Ordered(names)
    {
      var list := Get(responseHeader, VARY);
      if list == "" {
        return [];
      }
      var parts := SplitComma(list);
      names := parts;
      for i := 0 to |parts|
        invariant |names| == |parts|
        invariant forall j | 0 <= j < |parts| :: names[j] == if j < i then Canonical(Trim(parts[j])) else parts[j]
      {
        names := names[i := Canonical(Trim(names[i]))];
      }
      assert names == CanonicalNames(parts);
      SortSorts(names);
      names := Sort(names);
    }
  }

  // ---------------------------------------------------------------- the listed names

  /** The names of a Vary field are the canonical forms of what it lists, as many as there are parts, in order. */
  lemma VaryNamesExactly(v: string, n: string)
    ensures v == "" ==> VaryNames(v) == []
    ensures v != "" ==> (n in VaryNames(v) <==> exists name :: Listed(v, name) && Canonical(name) == n)
    ensures v != "" ==> |VaryNames(v)| == |SplitComma(v)| && Ordered(VaryNames(v))
  {
    var parts := SplitComma(v);
    var names := CanonicalNames(parts);
    SortSorts(names);
    assert |multiset(Sort(names))| == |multiset(names)|;
    if v != "" {
      assert n in VaryNames(v) <==> n in multiset(names);
      if n in names {
        var i :| 0 <= i < |names| && names[i] == n;
        ListedExactly(v, Trim(parts[i]));
      }
      forall name | Listed(v, name) && Canonical(name) == n
        ensures n in names
      {
        ListedExactly(v, name);
        var i :| 0 <= i < |parts| && Trim(parts[i]) == name;
        assert names[i] == n;
      }
    }
  }

  // ---------------------------------------------------------------- identity of variants

  /** The variant header of a request gives back the request's value of every listed name. */
  lemma {:induction false} ValuesOfRequest(r: Request, names: seq<string>)
    ensures Fits(names, ValuesOf(r, names), r)
  {
    if names != [] {
      var init, last := names[..|names| - 1], names[|names| - 1];
      ValuesOfRequest(r, init);
      forall n | n in names
        ensures Get(ValuesOf(r, names), n) == Get(r.header, n)
      {
        if Canonical(n) != Canonical(last) {
          assert n in init;
        }
      }
    }
  }

  /** A stored variant header matches another request exactly when the two requests agree on every listed name. */
  lemma MatchesExactlyAgreeing(names: seq<string>, stored: Request, r: Request)
    ensures Fits(names, ValuesOf(stored, names), r) <==> Agree(names, stored, r)
  {
    ValuesOfRequest(stored, names);
  }

  lemma {:induction false} SameVariantSameMaterial(a: Request, b: Request, names: seq<string>)
    requires SameTarget(a, b) && Agree(names, a, b)
    ensures Material(a, names) == Material(b, names)
  {
    SameValuesSameSuffix(a, b, names);
  }

  lemma {:induction false} SameValuesSameSuffix(a: Request, b: Request, names: seq<string>)
    requires Agree(names, a, b)
    ensures Suffix(a, names) == Suffix(b, names)
  {
    if names != [] {
      assert names[|names| - 1] in names;
      SameValuesSameSuffix(a, b, names[..|names| - 1]);
    }
  }

  // ---------------------------------------------------------------- normal form of Vary

  /** A listed name without the space around it, in lower case. */
  function Fold(part: string): string {
    Lower(Trim(part))
  }

  function Title(name: string): string {
    Capitalize(name, true)
  }

  ghost predicate ValidName(part: string) {
    Trim(part) != "" && AllTokenChars(Trim(part))
  }

  ghost predicate ValidNames(parts: seq<string>) {
    forall i | 0 <= i < |parts| :: ValidName(parts[i])
  }

  lemma CanonicalOfFolded(part: string)
    requires ValidName(part)
    ensures Canonical(Trim(part)) == Title(Fold(part))
  {
    CapitalizeIgnoresCase(Trim(part), true);
  }

  lemma NamesOfFolded(parts: seq<string>)
    requires ValidNames(parts)
    ensures CanonicalNames(parts) == Mapped(Title, Mapped(Fold, parts))
  {
    forall i | 0 <= i < |parts| {
      CanonicalOfFolded(parts[i]);
    }
  }

  /**
   Two Vary values that list the same valid names, up to order, letter case and the space around each,
   give the same name list, and so every request the same key under both.
   */
  lemma VaryNormalForm(v: string, w: string, r: Request)
    requires ValidNames(SplitComma(v)) && ValidNames(SplitComma(w))
    requires multiset(Mapped(Fold, SplitComma(v))) == multiset(Mapped(Fold, SplitComma(w)))
    ensures VaryNames(v) == VaryNames(w)
    ensures Material(r, VaryNames(v)) == Material(r, VaryNames(w))
  {
    var vs, ws := SplitComma(v), SplitComma(w);
    assert ValidName(vs[0]) && ValidName(ws[0]);
    NamesOfFolded(vs);
    NamesOfFolded(ws);
    MappedIgnoresOrder(Title, Mapped(Fold, vs), Mapped(Fold, ws));
    SortSorts(CanonicalNames(vs));
    SortSorts(CanonicalNames(ws));
    OrderedUnique(Sort(CanonicalNames(vs)), Sort(CanonicalNames(ws)));
  }
}
