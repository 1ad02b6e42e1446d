/** net/http header maps: canonical names, and the first value of a field. */
module Headers {
  import opened Text

  type Header = map<string, seq<string>>

  const VARY := "Vary"
  const CACHE_CONTROL := "Cache-Control"
  const SET_COOKIE := "Set-Cookie"
  const X_CACHE := "X-Cache"
  const ETAG := "Etag"
  const IF_NONE_MATCH := "If-None-Match"
  const RANGE := "Range"
  const CONNECTION := "Connection"
  const UPGRADE := "Upgrade"

  predicate IsLower(c: char) {
    'a' <= c <= 'z'
  }

  predicate IsUpper(c: char) {
    'A' <= c <= 'Z'
  }

  function ToUpper(c: char): char {
    if IsLower(c) then (c as int - 32) as char else c
  }

  function ToLower(c: char): char {
    if IsUpper(c) then (c as int + 32) as char else c
  }

  /** The characters of a token, section 5.6.2 of RFC 9110. */
  predicate IsTokenChar(c: char) {
    IsLower(c) || IsUpper(c) || IsDigit(c) || c in "!#$%&'*+-.^_`|~"
  }

  predicate AllTokenChars(name: string) {
    forall i | 0 <= i < |name| :: IsTokenChar(name[i])
  }

  function Capitalize(name: string, upper: bool): string {
    if name == "" then ""
    else [if upper then ToUpper(name[0]) else ToLower(name[0])] + Capitalize(name[1..], name[0] == '-')
  }

  /** http.CanonicalHeaderKey: a name that is not a token is left alone. */
  function Canonical(name: string): string {
    if AllTokenChars(name) then Capitalize(name, true) else name
  }

  function Get(h: Header, name: string): string {
    var key := Canonical(name);
    if key in h && h[key] != [] then h[key][0] else ""
  }

  function Set(h: Header, name: string, value: string): Header {
    h[Canonical(name) := [value]]
  }

  function Del(h: Header, name: string): Header {
    h - {Canonical(name)}
  }

  function Lower(name: string): string {
    if name == "" then "" else [ToLower(name[0])] + Lower(name[1..])
  }

  /** What the code relies on in net/http: a field is read by its first line, whatever the letter case of its name. */
  lemma FirstLineIsRead(h: Header, name: string, written: string, value: string, more: seq<string>)
    requires AllTokenChars(name) && AllTokenChars(written) && Lower(name) == Lower(written)
    ensures Get(h[Canonical(written) := [value] + more], name) == value
    ensures Get(Set(h, written, value), name) == value && Get(Del(h, written), name) == ""
    ensures Canonical(name) !in h ==> Get(h, name) == ""
  {
    CapitalizeIgnoresCase(name, true);
    CapitalizeIgnoresCase(written, true);
  }

  lemma {:induction false} CapitalizeIgnoresCase(name: string, upper: bool)
    ensures Capitalize(Lower(name), upper) == Capitalize(name, upper)
  {
    if name != "" {
      CapitalizeIgnoresCase(name[1..], name[0] == '-');
      assert Lower(name)[1..] == Lower(name[1..]);
    }
  }

  lemma {:induction false} CapitalizedAt(name: string, upper: bool, i: nat)
    requires i < |name|
    ensures |Capitalize(name, upper)| == |name|
    ensures Capitalize(name, upper)[i] ==
              if (i == 0 && upper) || (i > 0 && name[i - 1] == '-') then ToUpper(name[i]) else ToLower(name[i])
  {
    CapitalizeLength(name, upper);
    if i > 0 {
      CapitalizedAt(name[1..], name[0] == '-', i - 1);
    }
  }

  /** In a canonical name the letters that begin a part are upper case and all others lower. */
  lemma CanonicalExactly(name: string, i: nat)
    requires AllTokenChars(name) && i < |name|
    ensures |Canonical(name)| == |name|
    ensures var begins := i == 0 || name[i - 1] == '-';
            var c, was := Canonical(name)[i], name[i];
            && (begins ==> !('a' <= c <= 'z') && (c == was || was as int == c as int + 32))
            && (!begins ==> !('A' <= c <= 'Z') && (c == was || was as int == c as int - 32))
  {
    CapitalizedAt(name, true, i);
  }

  lemma {:induction false} CapitalizeLength(name: string, upper: bool)
    ensures |Capitalize(name, upper)| == |name|
  {
    if name != "" {
      CapitalizeLength(name[1..], name[0] == '-');
    }
  }

  lemma CanonicalLength(name: string)
    ensures |Canonical(name)| == |name|
  {
    CapitalizeLength(name, true);
  }
}
