/** String helpers with the meaning of the Python built-ins the backend uses. */
module Text {

  /** Python's str.isspace(), which is also what the regular-expression class \s matches. */
  predicate IsSpace(c: char)
  {
    || c == ' ' || '\U{9}' <= c <= '\U{D}' || '\U{1C}' <= c <= '\U{1F}'
    || c == '\U{85}' || c == '\U{A0}' || c == '\U{1680}' || '\U{2000}' <= c <= '\U{200A}'
    || c == '\U{2028}' || c == '\U{2029}' || c == '\U{202F}' || c == '\U{205F}' || c == '\U{3000}'
  }

  predicate AllSpace(s: string)
  {
    forall i :: 0 <= i < |s| ==> IsSpace(s[i])
  }

  /** str.lstrip() */
  function LStrip(s: string): (r: string)
    ensures |r| <= |s| && r == s[|s| - |r|..]
    ensures AllSpace(s[..|s| - |r|])
    ensures r == [] || !IsSpace(r[0])
  {
    if s != [] && IsSpace(s[0]) then
      SpaceAfterFirst(s, |s| - |LStrip(s[1..])|);
      LStrip(s[1..])
    else s
  }

  /** str.rstrip() */
  function RStrip(s: string): (r: string)
    ensures |r| <= |s| && r == s[..|r|]
    ensures AllSpace(s[|r|..])
    ensures r == [] || !IsSpace(r[|r| - 1])
  {
    if s != [] && IsSpace(s[|s| - 1]) then
      SpaceBeforeLast(s, |RStrip(s[..|s| - 1])|);
      RStrip(s[..|s| - 1])
    else s
  }

  /** str.strip(): drop leading and trailing whitespace. */
  function Strip(s: string): (r: string)
    ensures r != "" ==> !IsSpace(r[0]) && !IsSpace(r[|r| - 1])
    ensures |r| <= |s|
  {
    var l := LStrip(s);
    var r := RStrip(l);
    assert r != [] ==> r[0] == l[0];
    r
  }

  /** Strip leaves nothing exactly when s is all whitespace. */
  lemma StripEmpty(s: string)
    ensures Strip(s) == "" <==> AllSpace(s)
  {
    var l := LStrip(s);
    AllSpaceSplit(s, |s| - |l|);
    AllSpaceSplit(l, |RStrip(l)|);
  }

  /** A non-empty string with no whitespace at either end: what strip() leaves of a non-blank string. */
  predicate Stripped(p: string)
  {
    p != "" && !IsSpace(p[0]) && !IsSpace(p[|p| - 1])
  }

  lemma StripNonBlank(s: string)
    requires !AllSpace(s)
    ensures Stripped(Strip(s))
  {
    StripEmpty(s);
  }

  /** A first space, then a blank head of the rest, is a blank head. */
  lemma SpaceAfterFirst(s: string, k: nat)
    requires 1 <= k <= |s| && IsSpace(s[0]) && AllSpace(s[1..][..k - 1])
    ensures AllSpace(s[..k])
  {
    forall i | 1 <= i < k ensures IsSpace(s[..k][i]) {
      assert s[..k][i] == s[1..][..k - 1][i - 1];
    }
  }

  /** A blank tail of all but the last character, then a last space, is a blank tail. */
  lemma SpaceBeforeLast(s: string, k: nat)
    requires k < |s| && IsSpace(s[|s| - 1]) && AllSpace(s[..|s| - 1][k..])
    ensures AllSpace(s[k..])
  {
    forall i | 0 <= i < |s| - k ensures IsSpace(s[k..][i]) {
      if i < |s| - 1 - k { assert s[k..][i] == s[..|s| - 1][k..][i]; }
    }
  }

  lemma AllSpaceSplit(s: string, k: nat)
    requires k <= |s|
    ensures AllSpace(s) <==> AllSpace(s[..k]) && AllSpace(s[k..])
  {
    if AllSpace(s[..k]) && AllSpace(s[k..]) {
      forall i | 0 <= i < |s| ensures IsSpace(s[i]) {
        if i < k { assert s[i] == s[..k][i]; } else { assert s[i] == s[k..][i - k]; }
      }
    }
  }

  /** A string with no whitespace at either end is its own strip. */
  lemma StripNoEdgeSpace(s: string)
    requires s == [] || (!IsSpace(s[0]) && !IsSpace(s[|s| - 1]))
    ensures Strip(s) == s
  {
  }

  lemma StripIdempotent(s: string)
    ensures Strip(Strip(s)) == Strip(s)
  {
    StripNoEdgeSpace(Strip(s));
  }

  /** sep.join(parts) */
  function Join(parts: seq<string>, sep: string): (r: string)
  {
    if |parts| == 0 then ""
    else if |parts| == 1 then parts[0]
    else Join(parts[..|parts| - 1], sep) + sep + parts[|parts| - 1]
  }

  /** Appending one part to a non-empty list extends the joined string by the separator and the part. */
  lemma JoinSnoc(parts: seq<string>, sep: string, p: string)
    ensures Join(parts + [p], sep) == if parts == [] then p else Join(parts, sep) + sep + p
  {
    assert (parts + [p])[..|parts|] == parts;
  }

  function DigitChar(d: nat): (c: char)
    requires d < 10
    ensures '0' <= c <= '9'
  {
    (48 + d) as char
  }

  predicate IsDigit(c: char)
  {
    '0' <= c <= '9'
  }

  /** str(n) for a non-negative integer: its decimal digits, most significant first. */
  function NatToString(n: nat): (r: string)
    ensures |r| >= 1
    ensures forall i :: 0 <= i < |r| ==> IsDigit(r[i])
  {
    if n < 10 then [DigitChar(n)] else NatToString(n / 10) + [DigitChar(n % 10)]
  }

  /** str(i) for any integer. */
  function IntToString(i: int): (r: string)
    ensures |r| >= 1
    ensures r[0] == '-' <==> i < 0
    ensures forall j :: 0 < j < |r| ==> IsDigit(r[j])
  {
    if i < 0 then "-" + NatToString(-i) else NatToString(i)
  }

  lemma {:induction false} NatToStringInjective(m: nat, n: nat)
    requires NatToString(m) == NatToString(n)
    ensures m == n
  {
    if m < 10 && n < 10 {
      assert NatToString(m)[0] == DigitChar(m);
    } else if m >= 10 && n >= 10 {
      var sm, sn := NatToString(m), NatToString(n);
      assert sm[|sm| - 1] == DigitChar(m % 10) && sn[|sn| - 1] == DigitChar(n % 10);
      assert sm[..|sm| - 1] == NatToString(m / 10);
      assert sn[..|sn| - 1] == NatToString(n / 10);
      NatToStringInjective(m / 10, n / 10);
    }
  }

  lemma IntToStringInjective(a: int, b: int)
    requires IntToString(a) == IntToString(b)
    ensures a == b
  {
    if a < 0 {
      assert IntToString(a)[1..] == NatToString(-a) && IntToString(b)[1..] == NatToString(-b);
      NatToStringInjective(-a, -b);
    } else {
      NatToStringInjective(a, b);
    }
  }

  predicate StartsWith(s: string, prefix: string)
  {
    |prefix| <= |s| && s[..|prefix|] == prefix
  }

  predicate EndsWith(s: string, suffix: string)
  {
    |suffix| <= |s| && s[|s| - |suffix|..] == suffix
  }

  /** Python's `sub in s`. */
  predicate Contains(s: string, sub: string)
  {
    StartsWith(s, sub) || (s != [] && Contains(s[1..], sub))
  }

  /** str.find(c) for one character: the first index of c, or -1. */
  function FindChar(s: string, c: char): (r: int)
    ensures -1 <= r < |s|
    ensures r == -1 <==> c !in s
    ensures r >= 0 ==> s[r] == c && c !in s[..r]
  {
    if s == [] then -1
    else if s[0] == c then 0
    else
      var t := FindChar(s[1..], c);
      assert t >= 0 ==> s[..t + 1] == [s[0]] + s[1..][..t];
      if t == -1 then -1 else t + 1
  }

  /** str.rfind(c) for one character: the last index of c, or -1. */
  function RFindChar(s: string, c: char): (r: int)
    ensures -1 <= r < |s|
    ensures r == -1 <==> c !in s
    ensures r >= 0 ==> s[r] == c && c !in s[r + 1..]
  {
    if s == [] then -1
    else if s[|s| - 1] == c then |s| - 1
    else
      assert s == s[..|s| - 1] + [s[|s| - 1]];
      RFindChar(s[..|s| - 1], c)
  }

  /** str.lower() on the ASCII letters. */
  function LowerChar(c: char): char
  {
    if 'A' <= c <= 'Z' then (c as int + 32) as char else c
  }

  function Lower(s: string): (r: string)
    ensures |r| == |s|
    ensures forall i :: 0 <= i < |s| ==> r[i] == LowerChar(s[i])
  {
    seq(|s|, i requires 0 <= i < |s| => LowerChar(s[i]))
  }

  /** str.replace(pat, rep), or re.sub with a literal pattern: non-overlapping, left to right. */
  function ReplaceAll(s: string, pat: string, rep: string): string
    requires pat != ""
    decreases |s|
  {
    if s == [] then []
    else if StartsWith(s, pat) then rep + ReplaceAll(s[|pat|..], pat, rep)
    else [s[0]] + ReplaceAll(s[1..], pat, rep)
  }

  /** os.path.join(a, b) for two components. */
  function PathJoin(a: string, b: string): string
  {
    if StartsWith(b, "/") then b
    else if a == "" || EndsWith(a, "/") then a + b
    else a + "/" + b
  }
}
