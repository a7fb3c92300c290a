/**
  Masking of credentials in URI-like strings (maskUri, backend/src/utils/redact.ts). The two regular-expression
  replacements are written as the deterministic scans they are: `user:password@` right after the scheme, then every
  secret query parameter.
 */
module MaskUri {
  import opened Wrappers
  import opened Identifiers

  const STARS := "***"

  /** JavaScript `\s`. */
  predicate IsSpace(c: char)
  {
    c in " \t\n\r" || c as int in {0x0b, 0x0c, 0xa0, 0x1680, 0x2028, 0x2029, 0x202f, 0x205f, 0x3000, 0xfeff}
    || 0x2000 <= c as int <= 0x200a
  }

  /** The code points of `\s`. */
  lemma {:induction false} SpaceCodes(c: char)
    ensures var n := c as int;
      IsSpace(c) <==> 9 <= n <= 13 || n == 32 || n == 160 || n == 5760 || 8192 <= n <= 8202 || n == 8232 || n == 8233
                      || n == 8239 || n == 8287 || n == 12288 || n == 65279
  {
  }

  predicate NoSpace(s: string) { forall i | 0 <= i < |s| :: !IsSpace(s[i]) }

  // ---- URI shape: ^[a-z][a-z0-9+.-]*:\/\/\S+$ ----

  predicate IsSchemeChar(c: char) { IsLetter(c) || '0' <= c <= '9' || c in "+.-" }

  function SchemeSpan(s: string): (n: nat)
    ensures n <= |s| && (forall i | 0 <= i < n :: IsSchemeChar(s[i])) && (n < |s| ==> !IsSchemeChar(s[n]))
  {
    if s != "" && IsSchemeChar(s[0]) then 1 + SchemeSpan(s[1..]) else 0
  }

  /** Length of `scheme://`, when the string starts with one. */
  function SchemeLength(s: string): (r: Option<nat>)
    ensures r.Some? ==> 4 <= r.value <= |s|
  {
    var n := SchemeSpan(s);
    if n >= 1 && IsLetter(s[0]) && "://" <= s[n..] then Some(n + 3) else None
  }

  predicate UriLike(s: string)
  {
    SchemeLength(s).Some? && SchemeLength(s).value < |s| && NoSpace(s[SchemeLength(s).value..])
  }

  // ---- user:password@ ----

  // No white space follows the scheme of a URI-like string, so the `\s` in the runs below never ends one.

  predicate EndsUser(c: char) { c == '/' || c == '@' || c == ':' }

  /** Length of the run `[^/@\s:]*`. */
  function UserSpan(s: string): (n: nat)
    ensures n <= |s| && (forall i | 0 <= i < n :: !EndsUser(s[i])) && (n < |s| ==> EndsUser(s[n]))
  {
    if s != "" && !EndsUser(s[0]) then 1 + UserSpan(s[1..]) else 0
  }

  /** Length of the run `[^@\s]*`. */
  function PassSpan(s: string): (n: nat)
    ensures n <= |s| && (forall i | 0 <= i < n :: s[i] != '@') && (n < |s| ==> s[n] == '@')
  {
    if s != "" && s[0] != '@' then 1 + PassSpan(s[1..]) else 0
  }

  datatype Creds = Creds(user: string, pass: string, rest: string)

  /** Reads `user:pass@rest` at the start of the part after the scheme. */
  function ReadCreds(s: string): Option<Creds>
  {
    var a := UserSpan(s);
    if a == |s| || s[a] != ':' then None else ReadPass(s[..a], s[a + 1..])
  }

  function ReadPass(user: string, t: string): Option<Creds>
  {
    var b := PassSpan(t);
    if b == |t| then None else Some(Creds(user, t[..b], t[b + 1..]))
  }

  function MaskAuthority(s: string): string
  {
    match ReadCreds(s)
    case Some(c) => c.user + ":" + STARS + "@" + c.rest
    case None => s
  }

  // ---- secret parameters ----

  predicate IsDelim(c: char) { c == '?' || c == '&' || c == ';' }

  predicate IsSecretParam(name: string)
  {
    Lower(name) in {"password", "pwd", "pass", "secret", "token", "apikey", "api_key", "api-key",
                    "accesskey", "access_key", "access-key"}
  }

  function NameSpan(s: string): (n: nat)
    ensures n <= |s| && (forall i | 0 <= i < n :: s[i] != '=') && (n < |s| ==> s[n] == '=')
  {
    if s != "" && s[0] != '=' then 1 + NameSpan(s[1..]) else 0
  }

  /** Length of `?name=` when the string starts with a secret parameter. */
  function ParamLength(s: string): (r: Option<nat>)
    ensures r.Some? ==> 2 <= r.value <= |s| && s[r.value - 1] == '='
  {
    if s == "" || !IsDelim(s[0]) then None
    else
      var n := NameSpan(s[1..]);
      if 1 + n < |s| && IsSecretParam(s[1..1 + n]) then Some(n + 2) else None
  }

  predicate EndsValue(c: char) { c == '&' || c == ';' }

  /** Length of the run `[^&;\s]*`. */
  function ValueSpan(s: string): (n: nat)
    ensures n <= |s| && (forall i | 0 <= i < n :: !EndsValue(s[i])) && (n < |s| ==> EndsValue(s[n]))
  {
    if s != "" && !EndsValue(s[0]) then 1 + ValueSpan(s[1..]) else 0
  }

  /** What follows the value of the parameter the string starts with. */
  function AfterValue(s: string, len: nat): string
    requires len <= |s|
  {
    s[len + ValueSpan(s[len..])..]
  }

  function MaskParams(s: string): string
    decreases |s|
  {
    if s == "" then ""
    else match ParamLength(s)
      case Some(len) => s[..len] + STARS + MaskParams(AfterValue(s, len))
      case None => [s[0]] + MaskParams(s[1..])
  }

  function MaskRest(r: string): string { MaskParams(MaskAuthority(r)) }

  function Mask(s: string): string
  {
    if !UriLike(s) then s
    else var n := SchemeLength(s).value; s[..n] + MaskRest(s[n..])
  }

  // ---- the spans depend only on what they read ----

  predicate NoneOf(s: string, c: char) { forall i | 0 <= i < |s| :: s[i] != c }

  predicate IsUser(s: string) { forall i | 0 <= i < |s| :: !EndsUser(s[i]) }

  predicate IsValue(s: string) { forall i | 0 <= i < |s| :: !EndsValue(s[i]) }

  lemma {:induction false} UserSpanIs(u: string, rest: string)
    requires IsUser(u) && (rest == "" || EndsUser(rest[0]))
    ensures UserSpan(u + rest) == |u|
  {
    if u == "" { assert u + rest == rest; }
    else { assert (u + rest)[1..] == u[1..] + rest; UserSpanIs(u[1..], rest); }
  }

  lemma {:induction false} PassSpanIs(p: string, rest: string)
    requires NoneOf(p, '@') && (rest == "" || rest[0] == '@')
    ensures PassSpan(p + rest) == |p|
  {
    if p == "" { assert p + rest == rest; }
    else { assert (p + rest)[1..] == p[1..] + rest; PassSpanIs(p[1..], rest); }
  }

  lemma {:induction false} NameSpanIs(a: string, rest: string)
    requires NoneOf(a, '=') && (rest == "" || rest[0] == '=')
    ensures NameSpan(a + rest) == |a|
  {
    if a == "" { assert a + rest == rest; }
    else { assert (a + rest)[1..] == a[1..] + rest; NameSpanIs(a[1..], rest); }
  }

  lemma {:induction false} ValueSpanIs(a: string, rest: string)
    requires IsValue(a) && (rest == "" || EndsValue(rest[0]))
    ensures ValueSpan(a + rest) == |a|
  {
    if a == "" { assert a + rest == rest; }
    else { assert (a + rest)[1..] == a[1..] + rest; ValueSpanIs(a[1..], rest); }
  }

  lemma {:induction false} ReadsBackCreds(user: string, pass: string, rest: string)
    requires IsUser(user) && NoneOf(pass, '@')
    ensures ReadCreds(user + ":" + pass + "@" + rest) == Some(Creds(user, pass, rest))
  {
    var s, t := user + ":" + pass + "@" + rest, pass + "@" + rest;
    assert s == user + (":" + t);
    UserSpanIs(user, ":" + t);
    assert s[|user| + 1..] == t;
    assert t == pass + ("@" + rest);
    PassSpanIs(pass, "@" + rest);
    assert s[..|user|] == user && t[..|pass|] == pass && t[|pass| + 1..] == rest;
  }

  lemma {:induction false} SplitAt(s: string, i: nat, c: char)
    requires i < |s| && s[i] == c
    ensures s == s[..i] + [c] + s[i + 1..]
  {
  }

  lemma {:induction false} ReadPassParts(user: string, t: string)
    requires ReadPass(user, t).Some?
    ensures var c := ReadPass(user, t).value; c.user == user && NoneOf(c.pass, '@') && t == c.pass + "@" + c.rest
  {
    SplitAt(t, PassSpan(t), '@');
  }

  lemma {:induction false} CredsText(user: string, pass: string, rest: string)
    ensures user + ":" + pass + "@" + rest == user + ":" + (pass + "@" + rest)
  {
  }

  lemma {:induction false} ReadCredsParts(s: string)
    requires ReadCreds(s).Some?
    ensures var c := ReadCreds(s).value;
      IsUser(c.user) && NoneOf(c.pass, '@') && s == c.user + ":" + c.pass + "@" + c.rest
  {
    var a := UserSpan(s);
    var c := ReadCreds(s).value;
    ReadPassParts(s[..a], s[a + 1..]);
    SplitAt(s, a, ':');
    CredsText(c.user, c.pass, c.rest);
  }

  /** Masking the authority hides whatever password was there, and only that. */
  lemma {:induction false} AuthorityIsMasked(s: string)
    ensures ReadCreds(s).Some? ==>
              ReadCreds(MaskAuthority(s)) == Some(Creds(ReadCreds(s).value.user, STARS, ReadCreds(s).value.rest))
    ensures ReadCreds(s).None? ==> MaskAuthority(s) == s
  {
    if ReadCreds(s).Some? {
      ReadCredsParts(s);
      ReadsBackCreds(ReadCreds(s).value.user, STARS, ReadCreds(s).value.rest);
    }
  }

  // ---- a parameter by its parts ----

  lemma {:induction false} SecretNameIsPlain(name: string)
    requires IsSecretParam(name)
    ensures NoneOf(name, '=') && NoneOf(name, ':') && forall i | 0 <= i < |name| :: !IsDelim(name[i])
  {
    assert forall i | 0 <= i < |name| :: Lower(name)[i] == LowerChar(name[i]);
  }

  lemma {:induction false} ParamHasParts(s: string, len: nat) returns (name: string, rest: string)
    requires ParamLength(s) == Some(len)
    ensures IsDelim(s[0]) && IsSecretParam(name) && len == |name| + 2 && rest == s[len..]
    ensures s == [s[0]] + name + "=" + rest
  {
    name, rest := s[1..len - 1], s[len..];
    HeadText(s, len);
  }

  lemma {:induction false} HeadText(s: string, len: nat)
    requires 2 <= len <= |s|
    ensures s == [s[0]] + s[1..len - 1] + [s[len - 1]] + s[len..]
  {
  }

  lemma {:induction false} DelimText(d: char, name: string, rest: string)
    ensures [d] + name + "=" + rest == [d] + (name + "=" + rest)
    ensures ([d] + name + "=" + rest)[1..] == name + "=" + rest
    ensures name + "=" + rest == name + ("=" + rest)
  {
  }

  lemma {:induction false} PartsAreParam(d: char, name: string, rest: string)
    requires IsDelim(d) && NoneOf(name, '=')
    ensures ParamLength([d] + name + "=" + rest) == if IsSecretParam(name) then Some(|name| + 2) else None
  {
    var s := [d] + name + "=" + rest;
    DelimText(d, name, rest);
    NameSpanIs(name, "=" + rest);
    assert s[1..1 + |name|] == s[1..][..|name|] == name;
  }

  lemma {:induction false} NoEqualsNoParam(s: string)
    requires NoneOf(s, '=')
    ensures ParamLength(s).None?
  {
  }

  /** Masking a text that starts with a secret parameter, by its parts. */
  lemma {:induction false} MasksParam(d: char, name: string, v: string, tail: string)
    requires IsDelim(d) && IsSecretParam(name) && IsValue(v) && (tail == "" || EndsValue(tail[0]))
    ensures MaskParams([d] + name + "=" + v + tail) == [d] + name + "=" + STARS + MaskParams(tail)
  {
    var head := [d] + name + "=";
    var s := head + v + tail;
    SecretNameIsPlain(name);
    assert s == [d] + name + "=" + (v + tail);
    PartsAreParam(d, name, v + tail);
    assert s[|head|..] == v + tail;
    ValueSpanIs(v, tail);
    assert AfterValue(s, |head|) == tail && s[..|head|] == head;
  }

  lemma {:induction false} ParamText(d: char, name: string, v: string, tail: string)
    ensures [d] + name + "=" + v + tail == [d] + name + "=" + (v + tail)
  {
  }

  /** A text that starts with a secret parameter splits into it, its value and what follows. */
  lemma {:induction false} SplitParam(s: string, len: nat) returns (name: string, v: string, tail: string)
    requires ParamLength(s) == Some(len)
    ensures IsDelim(s[0]) && IsSecretParam(name) && IsValue(v) && (tail == "" || EndsValue(tail[0]))
    ensures s == [s[0]] + name + "=" + v + tail && len == |name| + 2 && tail == AfterValue(s, len)
    ensures MaskParams(s) == [s[0]] + name + "=" + STARS + MaskParams(tail)
  {
    var rest;
    name, rest := ParamHasParts(s, len);
    var n := ValueSpan(rest);
    v, tail := rest[..n], rest[n..];
    assert rest == v + tail;
    ParamText(s[0], name, v, tail);
    MasksParam(s[0], name, v, tail);
  }

  // ---- parameters: masked everywhere, and stable ----

  lemma {:induction false} FirstCharKept(s: string)
    ensures s == "" ==> MaskParams(s) == ""
    ensures s != "" ==> MaskParams(s) != "" && MaskParams(s)[0] == s[0]
  {
  }

  lemma {:induction false} NoEqualsNoChange(s: string)
    requires NoneOf(s, '=')
    ensures MaskParams(s) == s
  {
    if s != "" { NoEqualsNoParam(s); NoEqualsNoChange(s[1..]); }
  }

  lemma {:induction false} EqualsText(a: string, b: string)
    requires a != ""
    ensures a + "=" + b == [a[0]] + (a[1..] + "=" + b)
  {
  }

  /** Nothing up to the first `=` is changed. */
  lemma {:induction false} KeptThroughEquals(a: string, b: string) returns (w: string)
    requires NoneOf(a, '=')
    ensures MaskParams(a + "=" + b) == a + "=" + w
    decreases |a|
  {
    if a == "" {
      assert a + "=" + b == ['='] + b;
      PlainCharKept('=', b);
      w := MaskParams(b);
    } else if ParamLength(a + "=" + b).Some? {
      w := KeptInParam(a, b);
    } else {
      w := KeptThroughEquals(a[1..], b);
      EqualsText(a, b);
      KeepsChar(a[0], a[1..] + "=" + b);
      EqualsText(a, w);
    }
  }

  lemma {:induction false} KeptInParam(a: string, b: string) returns (w: string)
    requires NoneOf(a, '=') && ParamLength(a + "=" + b).Some?
    ensures MaskParams(a + "=" + b) == a + "=" + w
  {
    var s := a + "=" + b;
    var name, v, tail := SplitParam(s, ParamLength(s).value);
    w := STARS + MaskParams(tail);
    SameHead(a, b, s[0], name, v, tail, MaskParams(tail));
  }

  lemma {:induction false} SameHead(a: string, b: string, d: char, name: string, v: string, tail: string, mt: string)
    requires NoneOf(a, '=') && IsDelim(d) && IsSecretParam(name) && a + "=" + b == [d] + name + "=" + v + tail
    ensures [d] + name + "=" + STARS + mt == a + "=" + (STARS + mt)
  {
    SecretNameIsPlain(name);
    var head := [d] + name;
    assert a + "=" + b == head + "=" + (v + tail);
    SameFirstEquals(a, b, head, v + tail);
  }

  lemma {:induction false} SameFirstEquals(a: string, b: string, c: string, d: string)
    requires a + "=" + b == c + "=" + d && NoneOf(a, '=') && NoneOf(c, '=')
    ensures a == c && b == d
  {
    var s := a + "=" + b;
    assert s == a + ("=" + b) && s == c + ("=" + d);
    NameSpanIs(a, "=" + b);
    NameSpanIs(c, "=" + d);
    assert a == s[..|a|] == s[..|c|] == c;
    assert b == s[|a| + 1..] == s[|c| + 1..] == d;
  }

  lemma {:induction false} NonParamStays(s: string)
    requires s != "" && ParamLength(s).None?
    ensures ParamLength(MaskParams(s)).None?
  {
    if IsDelim(s[0]) {
      var n := NameSpan(s[1..]);
      if n == |s[1..]| {
        NoEqualsNoChange(s[1..]);
        assert s == [s[0]] + s[1..];
      } else {
        var name, b := s[1..][..n], s[1..][n + 1..];
        assert s[1..] == name + "=" + b;
        assert s == [s[0]] + name + "=" + b;
        NonSecretStays(s[0], name, b);
      }
    }
  }

  lemma {:induction false} NonSecretStays(d: char, name: string, b: string)
    requires IsDelim(d) && NoneOf(name, '=') && ParamLength([d] + name + "=" + b).None?
    ensures ParamLength(MaskParams([d] + name + "=" + b)).None?
  {
    PartsAreParam(d, name, b);
    var w := KeptThroughEquals(name, b);
    DelimText(d, name, b);
    KeepsChar(d, name + "=" + b);
    DelimText(d, name, w);
    PartsAreParam(d, name, w);
  }

  /** If the text starts with a secret parameter, its value is the mask and nothing else. */
  predicate ParamMasked(t: string)
  {
    ParamLength(t).Some? ==>
      var len := ParamLength(t).value;
      STARS <= t[len..] && (|t| == len + 3 || EndsValue(t[len + 3]))
  }

  ghost predicate AllMasked(s: string) { forall p | 0 <= p <= |s| :: ParamMasked(s[p..]) }

  lemma {:induction false} MaskedHead(d: char, name: string, tail: string)
    requires IsDelim(d) && IsSecretParam(name) && (tail == "" || EndsValue(tail[0]))
    ensures ParamMasked([d] + name + "=" + STARS + tail)
  {
    var t := [d] + name + "=" + STARS + tail;
    SecretNameIsPlain(name);
    assert t == [d] + name + "=" + (STARS + tail);
    PartsAreParam(d, name, STARS + tail);
    assert t[|name| + 2..] == STARS + tail;
  }

  lemma {:induction false} InsideIsNoParam(d: char, name: string, tail: string, p: nat)
    requires IsSecretParam(name) && 0 < p < |name| + 5
    ensures ParamLength(([d] + name + "=" + STARS + tail)[p..]).None?
  {
    var t := [d] + name + "=" + STARS + tail;
    SecretNameIsPlain(name);
    assert t[p] == if p <= |name| then name[p - 1] else if p == |name| + 1 then '=' else '*';
    assert t[p..][0] == t[p];
  }

  lemma {:induction false} BehindMasked(d: char, name: string, tail: string, p: nat)
    requires |name| + 5 <= p <= |name| + 5 + |tail|
    ensures ([d] + name + "=" + STARS + tail)[p..] == tail[p - |name| - 5..]
  {
  }

  lemma {:induction false} BehindKept(s: string, p: nat)
    requires s != "" && ParamLength(s).None? && 1 <= p <= |MaskParams(s)|
    ensures |MaskParams(s)| == 1 + |MaskParams(s[1..])| && MaskParams(s)[p..] == MaskParams(s[1..])[p - 1..]
  {
    var tail := MaskParams(s[1..]);
    assert ([s[0]] + tail)[p..] == tail[p - 1..];
  }

  /** No secret parameter of the masked text carries anything but the mask, at whatever position it is read. */
  lemma {:induction false} MaskedEverywhere(s: string, p: nat)
    requires p <= |MaskParams(s)|
    ensures ParamMasked(MaskParams(s)[p..])
    decreases |s|
  {
    if s != "" {
      if p == 0 { MaskedAtStart(s); }
      else if ParamLength(s).Some? {
        var name, v, tail := SplitParam(s, ParamLength(s).value);
        if p < |name| + 5 { InsideIsNoParam(s[0], name, MaskParams(tail), p); }
        else {
          MaskedEverywhere(tail, p - |name| - 5);
          BehindMasked(s[0], name, MaskParams(tail), p);
        }
      } else {
        MaskedEverywhere(s[1..], p - 1);
        BehindKept(s, p);
      }
    }
  }

  lemma {:induction false} MaskedAtStart(s: string)
    requires s != ""
    ensures ParamMasked(MaskParams(s)[0..])
  {
    assert MaskParams(s)[0..] == MaskParams(s);
    if ParamLength(s).Some? {
      var name, v, tail := SplitParam(s, ParamLength(s).value);
      FirstCharKept(tail);
      MaskedHead(s[0], name, MaskParams(tail));
    } else {
      NonParamStays(s);
    }
  }

  lemma {:induction false} AllMaskedAfter(s: string)
    ensures AllMasked(MaskParams(s))
  {
    forall p | 0 <= p <= |MaskParams(s)| ensures ParamMasked(MaskParams(s)[p..]) { MaskedEverywhere(s, p); }
  }

  lemma {:induction false} AllMaskedSuffix(a: string, b: string)
    requires AllMasked(a + b)
    ensures AllMasked(b)
  {
    forall p | 0 <= p <= |b| ensures ParamMasked(b[p..]) { assert (a + b)[|a| + p..] == b[p..]; }
  }

  /** A masked text that starts with a secret parameter, by its parts. */
  lemma {:induction false} SplitMasked(s: string, len: nat) returns (name: string, tail: string)
    requires AllMasked(s) && ParamLength(s) == Some(len)
    ensures IsDelim(s[0]) && IsSecretParam(name) && (tail == "" || EndsValue(tail[0]))
    ensures s == [s[0]] + name + "=" + STARS + tail && AllMasked(tail) && len == |name| + 2
  {
    var rest;
    name, rest := ParamHasParts(s, len);
    assert s[0..] == s && ParamMasked(s);
    tail := rest[3..];
    AfterStars(rest);
    assert tail != "" ==> tail[0] == s[len + 3];
    ParamText(s[0], name, STARS, tail);
    AllMaskedSuffix([s[0]] + name + "=" + STARS, tail);
  }

  lemma {:induction false} AfterStars(rest: string)
    requires STARS <= rest
    ensures rest == STARS + rest[3..]
  {
  }

  lemma {:induction false} MaskedIsStable(s: string)
    requires AllMasked(s)
    ensures MaskParams(s) == s
    decreases |s|
  {
    if s != "" {
      if ParamLength(s).Some? {
        var name, tail := SplitMasked(s, ParamLength(s).value);
        MasksParam(s[0], name, STARS, tail);
        MaskedIsStable(tail);
      } else {
        assert s == [s[0]] + s[1..];
        AllMaskedSuffix([s[0]], s[1..]);
        MaskedIsStable(s[1..]);
      }
    }
  }

  lemma {:induction false} ParamsIdempotent(s: string)
    ensures MaskParams(MaskParams(s)) == MaskParams(s)
  {
    AllMaskedAfter(s);
    MaskedIsStable(MaskParams(s));
  }

  // ---- when a second pass changes something ----

  lemma {:induction false} ColonAfter(h: string, r: string, u: string, x: string)
    requires NoneOf(h, ':') && h + r == u + ":" + x
    ensures |h| <= |u| && u == h + u[|h|..] && r == u[|h|..] + ":" + x
  {
    var s := u + ":" + x;
    assert s[|u|] == ':';
    assert forall i | 0 <= i < |h| :: s[i] == h[i];
    assert |h| <= |u|;
    assert u == s[..|u|];
    assert r == s[|h|..];
  }

  /** Whether a text with a `:` starts with a secret parameter is decided before the `:`. */
  lemma {:induction false} ParamDecidedBeforeColon(u: string, x: string, y: string)
    requires ParamLength(u + ":" + x).Some?
    ensures ParamLength(u + ":" + y).Some?
  {
    var s := u + ":" + x;
    var name, rest := ParamHasParts(s, ParamLength(s).value);
    SecretNameIsPlain(name);
    var h := [s[0]] + name + "=";
    ColonAfter(h, rest, u, x);
    var u' := u[|h|..];
    assert u + ":" + y == [s[0]] + name + "=" + (u' + ":" + y);
    PartsAreParam(s[0], name, u' + ":" + y);
  }

  /** A character that starts no secret parameter is kept. */
  lemma {:induction false} KeepsChar(c: char, rest: string)
    requires ParamLength([c] + rest).None?
    ensures MaskParams([c] + rest) == [c] + MaskParams(rest)
  {
    assert ([c] + rest)[1..] == rest;
  }

  lemma {:induction false} PlainCharKept(c: char, rest: string)
    requires !IsDelim(c)
    ensures MaskParams([c] + rest) == [c] + MaskParams(rest)
  {
    KeepsChar(c, rest);
  }

  /** Before a `:` that masking keeps, nothing depends on what comes after it. */
  lemma {:induction false} MaskedPrefixIsClosed(u: string, x: string, y: string)
    requires AllMasked(u + ":" + x)
    ensures MaskParams(u + ":" + y) == u + ":" + MaskParams(y)
    decreases |u|
  {
    if u == "" {
      PlainCharKept(':', y);
      assert u + ":" + y == [':'] + y;
    } else if ParamLength(u + ":" + x).Some? {
      var d, name, u' := ClosedParam(u, x, y);
      MaskedPrefixIsClosed(u', x, y);
      JoinParam(u, d, name, u', y);
    } else {
      ClosedChar(u, x, y);
      MaskedPrefixIsClosed(u[1..], x, y);
      JoinChar(u, y);
    }
  }

  lemma {:induction false} JoinParam(u: string, d: char, name: string, u': string, y: string)
    requires u == [d] + name + "=" + STARS + u'
    requires MaskParams(u + ":" + y) == [d] + name + "=" + STARS + MaskParams(u' + ":" + y)
    requires MaskParams(u' + ":" + y) == u' + ":" + MaskParams(y)
    ensures MaskParams(u + ":" + y) == u + ":" + MaskParams(y)
  {
    SameParamText(u, d, name, u', MaskParams(y));
  }

  lemma {:induction false} JoinChar(u: string, y: string)
    requires u != "" && MaskParams(u + ":" + y) == [u[0]] + MaskParams(u[1..] + ":" + y)
    requires MaskParams(u[1..] + ":" + y) == u[1..] + ":" + MaskParams(y)
    ensures MaskParams(u + ":" + y) == u + ":" + MaskParams(y)
  {
    SameCharText(u, MaskParams(y));
  }

  lemma {:induction false} SameParamText(u: string, d: char, name: string, u': string, z: string)
    requires u == [d] + name + "=" + STARS + u'
    ensures u + ":" + z == [d] + name + "=" + STARS + (u' + ":" + z)
  {
  }

  lemma {:induction false} SameCharText(u: string, z: string)
    requires u != ""
    ensures u + ":" + z == [u[0]] + (u[1..] + ":" + z)
  {
  }

  lemma {:induction false} ClosedChar(u: string, x: string, y: string)
    requires u != "" && AllMasked(u + ":" + x) && ParamLength(u + ":" + x).None?
    ensures AllMasked(u[1..] + ":" + x)
    ensures MaskParams(u + ":" + y) == [u[0]] + MaskParams(u[1..] + ":" + y)
  {
    if ParamLength(u + ":" + y).Some? {
      ParamDecidedBeforeColon(u, y, x);
      assert false;
    }
    SameCharText(u, x);
    AllMaskedSuffix([u[0]], u[1..] + ":" + x);
    SameCharText(u, y);
    KeepsChar(u[0], u[1..] + ":" + y);
  }

  lemma {:induction false} ClosedParam(u: string, x: string, y: string) returns (d: char, name: string, u': string)
    requires AllMasked(u + ":" + x) && ParamLength(u + ":" + x).Some?
    ensures |u'| < |u| && u == [d] + name + "=" + STARS + u' && AllMasked(u' + ":" + x)
    ensures MaskParams(u + ":" + y) == [d] + name + "=" + STARS + MaskParams(u' + ":" + y)
  {
    var s := u + ":" + x;
    var tail;
    d := s[0];
    name, tail := SplitMasked(s, ParamLength(s).value);
    u' := ClosedTail(u, x, y, d, name, tail);
  }

  lemma {:induction false} ClosedTail(u: string, x: string, y: string, d: char, name: string, tail: string)
    returns (u': string)
    requires u + ":" + x == [d] + name + "=" + STARS + tail && IsDelim(d) && IsSecretParam(name)
    requires AllMasked(tail) && (tail == "" || EndsValue(tail[0]))
    ensures |u'| < |u| && u == [d] + name + "=" + STARS + u' && tail == u' + ":" + x && AllMasked(u' + ":" + x)
    ensures MaskParams(u + ":" + y) == [d] + name + "=" + STARS + MaskParams(u' + ":" + y)
  {
    SecretNameIsPlain(name);
    var h := [d] + name + "=" + STARS;
    ColonAfter(h, tail, u, x);
    u' := u[|h|..];
    var after := u' + ":" + y;
    assert after[0] == tail[0];
    assert u + ":" + y == [d] + name + "=" + STARS + after;
    MasksParam(d, name, STARS, after);
  }

  lemma {:induction false} PlainPrefixKept(u: string, rest: string)
    requires forall i | 0 <= i < |u| :: !IsDelim(u[i])
    ensures MaskParams(u + rest) == u + MaskParams(rest)
  {
    if u == "" { assert u + rest == rest; }
    else {
      PlainCharKept(u[0], u[1..] + rest);
      PlainPrefixKept(u[1..], rest);
      SplitFirst(u, rest);
      SplitFirst(u, MaskParams(rest));
    }
  }

  lemma {:induction false} SplitFirst(u: string, rest: string)
    requires u != ""
    ensures u + rest == [u[0]] + (u[1..] + rest)
  {
  }

  /** The first pass left readable credentials: parameter masking swallowed what kept them apart. */
  predicate Exposed(r: string)
  {
    var c := ReadCreds(MaskRest(r));
    c.Some? && c.value.pass != STARS
  }

  lemma {:induction false} AuthorityOfCreds(user: string, pass: string, rest: string)
    requires IsUser(user) && NoneOf(pass, '@')
    ensures MaskAuthority(user + ":" + pass + "@" + rest) == user + ":" + STARS + "@" + rest
  {
    ReadsBackCreds(user, pass, rest);
  }

  lemma {:induction false} StarsKept(rest: string)
    ensures MaskParams(STARS + "@" + rest) == STARS + "@" + MaskParams(rest)
  {
    PlainPrefixKept(STARS + "@", rest);
  }

  lemma {:induction false} ParamsOfCreds(user: string, x: string, rest: string)
    requires AllMasked(user + ":" + x)
    ensures MaskParams(user + ":" + STARS + "@" + rest) == user + ":" + STARS + "@" + MaskParams(rest)
  {
    MaskedPrefixIsClosed(user, x, STARS + "@" + rest);
    StarsKept(rest);
    CredsText(user, STARS, rest);
    CredsText(user, STARS, MaskParams(rest));
  }

  lemma {:induction false} CredsPass(user: string, p: string, q: string, x: string, y: string)
    requires IsUser(user) && NoneOf(p, '@') && NoneOf(q, '@') && p != q
    ensures user + ":" + p + "@" + x != user + ":" + q + "@" + y
  {
    ReadsBackCreds(user, p, x);
    ReadsBackCreds(user, q, y);
  }

  /** Masking a masked text with credentials. */
  lemma {:induction false} MaskRestOfCreds(user: string, pass: string, rest: string)
    requires AllMasked(user + ":" + (pass + "@" + rest)) && IsUser(user) && NoneOf(pass, '@')
    ensures MaskRest(user + ":" + pass + "@" + rest) == user + ":" + STARS + "@" + MaskParams(rest)
  {
    AuthorityOfCreds(user, pass, rest);
    ParamsOfCreds(user, pass + "@" + rest, rest);
  }

  lemma {:induction false} PassChanges(user: string, pass: string, rest: string)
    requires AllMasked(user + ":" + (pass + "@" + rest)) && IsUser(user) && NoneOf(pass, '@') && pass != STARS
    ensures MaskRest(user + ":" + pass + "@" + rest) != user + ":" + pass + "@" + rest
  {
    MaskRestOfCreds(user, pass, rest);
    CredsPass(user, STARS, pass, MaskParams(rest), rest);
  }

  lemma {:induction false} ExposedChanges(out: string)
    requires AllMasked(out) && ReadCreds(out).Some? && ReadCreds(out).value.pass != STARS
    ensures MaskRest(out) != out
  {
    ReadCredsParts(out);
    var c := ReadCreds(out).value;
    CredsText(c.user, c.pass, c.rest);
    PassChanges(c.user, c.pass, c.rest);
  }

  /** A second pass over the part after the scheme changes it exactly when the first left credentials readable. */
  lemma {:induction false} RestStableIff(r: string)
    ensures MaskRest(MaskRest(r)) == MaskRest(r) <==> !Exposed(r)
  {
    var out := MaskRest(r);
    AllMaskedAfter(MaskAuthority(r));
    if Exposed(r) { ExposedChanges(out); }
    else {
      if ReadCreds(out).Some? { ReadCredsParts(out); }
      assert MaskAuthority(out) == out;
      MaskedIsStable(out);
    }
  }

  /** The run after `://`, up to the first `/`, `@` or `:`, holds no parameter delimiter. */
  predicate PlainHostRun(r: string) { forall i | 0 <= i < UserSpan(r) :: !IsDelim(r[i]) }

  lemma {:induction false} NoAtKept(s: string)
    requires NoneOf(s, '@')
    ensures NoneOf(MaskParams(s), '@')
    decreases |s|
  {
    if s != "" {
      if ParamLength(s).Some? { NoAtKept(AfterValue(s, ParamLength(s).value)); }
      else { NoAtKept(s[1..]); }
    }
  }

  lemma {:induction false} PlainRunNoColon(u: string, rest: string)
    requires IsUser(u) && (rest == "" || (EndsUser(rest[0]) && rest[0] != ':'))
    ensures ReadCreds(u + MaskParams(rest)).None?
  {
    FirstCharKept(rest);
    NoCredsAfterUser(u, MaskParams(rest));
  }

  lemma {:induction false} PlainRunNoAt(u: string, t: string)
    requires IsUser(u) && ReadCreds(u + ":" + t).None?
    ensures ReadCreds(u + MaskParams([':'] + t)).None?
  {
    CredsAfterUser(u, t);
    NoAtKept(t);
    PlainCharKept(':', t);
    ColonText(u, MaskParams(t));
    CredsAfterUser(u, MaskParams(t));
  }

  lemma {:induction false} PlainRunParts(u: string, rest: string)
    requires IsUser(u) && (rest == "" || EndsUser(rest[0])) && ReadCreds(u + rest).None?
    ensures ReadCreds(u + MaskParams(rest)).None?
  {
    if rest != "" && rest[0] == ':' {
      assert rest == [':'] + rest[1..];
      ColonText(u, rest[1..]);
      PlainRunNoAt(u, rest[1..]);
    } else {
      PlainRunNoColon(u, rest);
    }
  }

  lemma {:induction false} PlainRunNoCreds(r: string)
    requires PlainHostRun(r) && ReadCreds(r).None?
    ensures ReadCreds(MaskParams(r)).None?
  {
    var u, rest := r[..UserSpan(r)], r[UserSpan(r)..];
    assert r == u + rest;
    PlainPrefixKept(u, rest);
    PlainRunParts(u, rest);
  }

  lemma {:induction false} MaskText(user: string, rest: string)
    ensures user + ":" + STARS + "@" + rest == user + ([':'] + (STARS + "@" + rest))
  {
  }

  lemma {:induction false} PlainCredsMasked(user: string, rest: string)
    requires IsUser(user) && forall i | 0 <= i < |user| :: !IsDelim(user[i])
    ensures ReadCreds(MaskParams(user + ":" + STARS + "@" + rest)) == Some(Creds(user, STARS, MaskParams(rest)))
  {
    PlainPrefixKept(user, [':'] + (STARS + "@" + rest));
    PlainCharKept(':', STARS + "@" + rest);
    StarsKept(rest);
    MaskText(user, rest);
    MaskText(user, MaskParams(rest));
    ReadsBackCreds(user, STARS, MaskParams(rest));
  }

  /** With a plain host run nothing is ever exposed, so one pass is enough. */
  lemma {:induction false} PlainRunIsNotExposed(r: string)
    requires PlainHostRun(r)
    ensures !Exposed(r)
  {
    if ReadCreds(r).Some? {
      var c := ReadCreds(r).value;
      ReadCredsParts(r);
      assert c.user == r[..UserSpan(r)];
      PlainCredsMasked(c.user, c.rest);
    } else {
      PlainRunNoCreds(r);
    }
  }

  // ---- what exposes credentials, read off the input ----

  /** What is left from the first `/`, `@` or `:` that is not inside a secret parameter's value. */
  function VisibleEnd(s: string): (r: string)
    ensures r == "" || EndsUser(r[0])
    decreases |s|
  {
    if s == "" then ""
    else match ParamLength(s)
      case Some(len) => VisibleEnd(AfterValue(s, len))
      case None => if EndsUser(s[0]) then s else VisibleEnd(s[1..])
  }

  /** Some `@` is not inside a secret parameter's value. */
  predicate VisibleAt(s: string)
    decreases |s|
  {
    s != "" && match ParamLength(s)
      case Some(len) => VisibleAt(AfterValue(s, len))
      case None => s[0] == '@' || VisibleAt(s[1..])
  }

  /**
    Once parameter values are blanked out, what is left starts with a user, a `:` and a password other than the mask.
    The authority pass did not see it there, because a parameter value held the first `/`, `@` or `:`.
   */
  predicate HiddenCreds(t: string)
  {
    var e := VisibleEnd(t);
    e != "" && e[0] == ':' && VisibleAt(e[1..]) && !(STARS + "@" <= e[1..])
  }

  lemma {:induction false} SecretNameIsUser(name: string)
    requires IsSecretParam(name)
    ensures IsUser(name)
  {
    assert forall i | 0 <= i < |name| :: Lower(name)[i] == LowerChar(name[i]);
  }

  /** What masking shows before the first visible end is a user. */
  lemma {:induction false} MaskedUser(s: string) returns (u: string)
    ensures IsUser(u) && MaskParams(s) == u + MaskParams(VisibleEnd(s))
    decreases |s|
  {
    u := "";
    if s != "" {
      if ParamLength(s).Some? {
        var name, v, tail := SplitParam(s, ParamLength(s).value);
        var w := MaskedUser(tail);
        u := ParamThenUser(s[0], name, w, MaskParams(VisibleEnd(tail)));
      } else if !EndsUser(s[0]) {
        var w := MaskedUser(s[1..]);
        u := CharThenUser(s[0], w, MaskParams(VisibleEnd(s[1..])));
      }
    }
  }

  lemma {:induction false} CharThenUser(c: char, w: string, z: string) returns (u: string)
    requires !EndsUser(c) && IsUser(w)
    ensures IsUser(u) && [c] + (w + z) == u + z
  {
    u := [c] + w;
  }

  lemma {:induction false} ParamThenUser(d: char, name: string, w: string, z: string) returns (u: string)
    requires IsDelim(d) && IsSecretParam(name) && IsUser(w)
    ensures IsUser(u) && [d] + name + "=" + STARS + (w + z) == u + z
  {
    SecretNameIsUser(name);
    u := [d] + name + "=" + STARS + w;
  }

  lemma {:induction false} MaskedAt(s: string)
    ensures VisibleAt(s) <==> !NoneOf(MaskParams(s), '@')
    decreases |s|
  {
    if s != "" {
      if ParamLength(s).Some? {
        var name, v, tail := SplitParam(s, ParamLength(s).value);
        MaskedAt(tail);
        AtIsInTail(s[0], name, MaskParams(tail));
      } else {
        MaskedAt(s[1..]);
        AtAfterChar(s[0], MaskParams(s[1..]));
      }
    }
  }

  lemma {:induction false} AtIsInTail(d: char, name: string, z: string)
    requires IsDelim(d) && IsSecretParam(name)
    ensures NoneOf([d] + name + "=" + STARS + z, '@') <==> NoneOf(z, '@')
  {
    SecretNameIsUser(name);
    var h := [d] + name + "=" + STARS;
    assert forall i | 0 <= i < |z| :: (h + z)[|h| + i] == z[i];
  }

  lemma {:induction false} AtAfterChar(c: char, z: string)
    ensures NoneOf([c] + z, '@') <==> c != '@' && NoneOf(z, '@')
  {
    assert forall i | 0 <= i < |z| :: ([c] + z)[1 + i] == z[i];
    assert ([c] + z)[0] == c;
  }

  /** Masking neither makes nor breaks a plain prefix. */
  lemma {:induction false} PlainPrefixIff(p: string, s: string)
    requires forall i | 0 <= i < |p| :: !IsDelim(p[i])
    ensures p <= MaskParams(s) <==> p <= s
  {
    FirstCharKept(s);
    if p != "" && s != "" && p[0] == s[0] {
      PlainCharKept(s[0], s[1..]);
      assert s == [s[0]] + s[1..];
      PlainPrefixIff(p[1..], s[1..]);
      PrefixStep(p, s[0], s[1..]);
      PrefixStep(p, s[0], MaskParams(s[1..]));
    }
  }

  lemma {:induction false} PrefixStep(p: string, c: char, z: string)
    requires p != "" && p[0] == c
    ensures p <= [c] + z <==> p[1..] <= z
  {
    assert ([c] + z)[1..] == z;
    assert p == [c] + p[1..];
  }

  /** Reading a password out of a text that starts with a user and a `:`. */
  lemma {:induction false} CredsAfterUser(u: string, z: string)
    requires IsUser(u)
    ensures ReadCreds(u + ":" + z).Some? <==> !NoneOf(z, '@')
    ensures ReadCreds(u + ":" + z).Some? ==> (ReadCreds(u + ":" + z).value.pass == STARS <==> STARS + "@" <= z)
  {
    var s := u + ":" + z;
    assert s == u + (":" + z);
    UserSpanIs(u, ":" + z);
    assert s[|u| + 1..] == z;
    StarsPrefix(z, PassSpan(z));
  }

  lemma {:induction false} StarsPrefix(z: string, b: nat)
    requires b < |z| ==> z[b] == '@' && forall i | 0 <= i < b :: z[i] != '@'
    ensures b < |z| ==> (z[..b] == STARS <==> STARS + "@" <= z)
  {
    if b < |z| && STARS + "@" <= z {
      assert z[3] == '@' && z[0] == '*' && z[1] == '*' && z[2] == '*';
      assert b == 3;
    }
  }

  lemma {:induction false} NoCredsAfterUser(u: string, z: string)
    requires IsUser(u) && (z == "" || (EndsUser(z[0]) && z[0] != ':'))
    ensures ReadCreds(u + z).None?
  {
    UserSpanIs(u, z);
  }

  /** What is readable after a visible `:`. */
  lemma {:induction false} ReadableAfterColon(u: string, z: string)
    requires IsUser(u)
    ensures var c := ReadCreds(u + MaskParams([':'] + z));
      (c.Some? && c.value.pass != STARS) <==> VisibleAt(z) && !(STARS + "@" <= z)
  {
    PlainCharKept(':', z);
    ColonText(u, MaskParams(z));
    CredsAfterUser(u, MaskParams(z));
    MaskedAt(z);
    PlainPrefixIff(STARS + "@", z);
  }

  lemma {:induction false} ExposedIffHidden(r: string)
    ensures Exposed(r) <==> HiddenCreds(MaskAuthority(r))
  {
    var e := VisibleEnd(MaskAuthority(r));
    var u := MaskedUser(MaskAuthority(r));
    if e != "" && e[0] == ':' {
      assert e == [':'] + e[1..];
      ReadableAfterColon(u, e[1..]);
    } else {
      PlainRunNoColon(u, e);
    }
  }

  lemma {:induction false} ColonText(u: string, z: string)
    ensures u + ([':'] + z) == u + ":" + z
  {
  }

  // ---- whole URIs ----

  lemma {:induction false} SchemeSpanIs(a: string, rest: string)
    requires (forall i | 0 <= i < |a| :: IsSchemeChar(a[i])) && (rest == "" || !IsSchemeChar(rest[0]))
    ensures SchemeSpan(a + rest) == |a|
  {
    if a == "" { assert a + rest == rest; }
    else { assert (a + rest)[1..] == a[1..] + rest; SchemeSpanIs(a[1..], rest); }
  }

  /** The scheme is read without looking at what follows it. */
  lemma {:induction false} SchemeIsLocal(s: string, n: nat, rest: string)
    requires SchemeLength(s) == Some(n)
    ensures SchemeLength(s[..n] + rest) == Some(n)
  {
    var a := s[..n - 3];
    assert s[..n] == a + "://" by { assert s[n - 3..][..3] == "://"; }
    assert s[..n] + rest == a + ("://" + rest);
    SchemeSpanIs(a, "://" + rest);
    assert (s[..n] + rest)[n - 3..] == "://" + rest;
  }

  lemma {:induction false} ParamsKeepNoSpace(s: string)
    requires NoSpace(s)
    ensures NoSpace(MaskParams(s))
    decreases |s|
  {
    if s != "" {
      if ParamLength(s).Some? { ParamsKeepNoSpace(AfterValue(s, ParamLength(s).value)); }
      else { ParamsKeepNoSpace(s[1..]); }
    }
  }

  lemma {:induction false} AuthorityKeepsNoSpace(s: string)
    requires NoSpace(s)
    ensures NoSpace(MaskAuthority(s))
  {
    if ReadCreds(s).Some? {
      var c := ReadCreds(s).value;
      ReadCredsParts(s);
      NoSpaceParts(c.user, c.pass, c.rest);
    }
  }

  lemma {:induction false} NoSpaceParts(user: string, pass: string, rest: string)
    requires NoSpace(user + ":" + pass + "@" + rest)
    ensures NoSpace(user + ":" + STARS + "@" + rest)
  {
    var s := user + ":" + pass + "@" + rest;
    assert forall i | 0 <= i < |user| :: user[i] == s[i];
    assert forall i | 0 <= i < |rest| :: rest[i] == s[|user| + |pass| + 2 + i];
  }

  /** Masking the rest of a URI gives the rest of a URI. */
  lemma {:induction false} RestStaysRest(r: string)
    requires r != "" && NoSpace(r)
    ensures MaskRest(r) != "" && NoSpace(MaskRest(r))
  {
    AuthorityKeepsNoSpace(r);
    ParamsKeepNoSpace(MaskAuthority(r));
    FirstCharKept(MaskAuthority(r));
  }

  lemma {:induction false} MaskOfParts(s: string, n: nat, rest: string)
    requires SchemeLength(s) == Some(n) && rest != "" && NoSpace(rest)
    ensures UriLike(s[..n] + rest) && SchemeLength(s[..n] + rest) == Some(n)
    ensures Mask(s[..n] + rest) == s[..n] + MaskRest(rest)
  {
    SchemeIsLocal(s, n, rest);
    assert (s[..n] + rest)[n..] == rest && (s[..n] + rest)[..n] == s[..n];
  }

  /** A masked URI is a URI of the same scheme, in which no secret parameter carries a value. */
  lemma {:induction false} MaskedUriShape(s: string)
    requires UriLike(s)
    ensures var n := SchemeLength(s).value;
      UriLike(Mask(s)) && SchemeLength(Mask(s)) == Some(n) && Mask(s)[..n] == s[..n] && AllMasked(Mask(s)[n..])
  {
    var n := SchemeLength(s).value;
    RestStaysRest(s[n..]);
    MaskOfParts(s, n, MaskRest(s[n..]));
    AllMaskedAfter(MaskAuthority(s[n..]));
    assert Mask(s)[n..] == MaskRest(s[n..]);
  }

  /** A password without `@` does not show: the masked text is the same for any two of them. */
  lemma {:induction false} PasswordWithoutAtIsHidden(s: string, n: nat, user: string, p: string, q: string,
        rest: string)
    requires SchemeLength(s) == Some(n) && IsUser(user) && NoneOf(p, '@') && NoneOf(q, '@')
    requires NoSpace(user + ":" + p + "@" + rest) && NoSpace(user + ":" + q + "@" + rest)
    ensures Mask(s[..n] + (user + ":" + p + "@" + rest)) == Mask(s[..n] + (user + ":" + q + "@" + rest))
  {
    MaskOfParts(s, n, user + ":" + p + "@" + rest);
    MaskOfParts(s, n, user + ":" + q + "@" + rest);
    AuthorityOfCreds(user, p, rest);
    AuthorityOfCreds(user, q, rest);
  }

  /** A text of the form `scheme://rest`. */
  predicate IsUri(s: string, scheme: string, rest: string)
  {
    && s == scheme + "://" + rest && scheme != "" && rest != ""
    && ('a' <= scheme[0] <= 'z' || 'A' <= scheme[0] <= 'Z')
    && (forall i | 0 <= i < |scheme| ::
          'a' <= scheme[i] <= 'z' || 'A' <= scheme[i] <= 'Z' || '0' <= scheme[i] <= '9' || scheme[i] in "+.-")
    && forall i | 0 <= i < |rest| :: !IsSpace(rest[i])
  }

  lemma {:induction false} UriHasParts(s: string, scheme: string, rest: string)
    requires IsUri(s, scheme, rest)
    ensures UriLike(s) && SchemeLength(s) == Some(|scheme| + 3) && s[|scheme| + 3..] == rest
  {
    assert s == scheme + ("://" + rest);
    SchemeSpanIs(scheme, "://" + rest);
    assert s[|scheme|..] == "://" + rest;
  }

  /** Masking applies exactly to texts of that form. */
  lemma {:induction false} UriLikeIff(s: string)
    ensures UriLike(s) <==> exists scheme, rest :: IsUri(s, scheme, rest)
    ensures !UriLike(s) ==> Mask(s) == s
  {
    if UriLike(s) {
      var n := SchemeLength(s).value;
      var scheme, rest := s[..n - 3], s[n..];
      assert s[n - 3..n] == "://";
      assert s == scheme + "://" + rest;
      assert IsUri(s, scheme, rest);
    }
    if scheme, rest :| IsUri(s, scheme, rest) { UriHasParts(s, scheme, rest); }
  }

  // ---- a password with an `@` in it ----

  /** No secret parameter starts in the text. */
  predicate NoSecretIn(u: string) { forall k | 0 <= k <= |u| :: ParamLength(u[k..]).None? }

  /** Characters that occur in no secret name and are not its `=`. */
  predicate Breaks(c: char) { c == ':' || c == '@' || IsDelim(c) }

  lemma {:induction false} SecretNameHasNoBreak(name: string)
    requires IsSecretParam(name)
    ensures forall i | 0 <= i < |name| :: !Breaks(name[i])
  {
    SecretNameIsUser(name);
    SecretNameIsPlain(name);
  }

  lemma {:induction false} HeadHasNoBreak(d: char, name: string, i: nat)
    requires IsSecretParam(name) && 0 < i < |name| + 2
    ensures !Breaks(([d] + name + "=")[i])
  {
    SecretNameHasNoBreak(name);
    assert ([d] + name + "=")[i] == if i <= |name| then name[i - 1] else '=';
  }

  /** Two ways to cut a text: either the first head ends in the first part, or it reaches past the `c` after it. */
  lemma {:induction false} CutsCompare(a: string, b: string, u: string, rest: string)
    requires a + b == u + rest
    ensures |a| <= |u| ==> u == a + u[|a|..] && b == u[|a|..] + rest
    ensures |a| > |u| ==> rest != "" && a[|u|] == rest[0] && a == u + a[|u|..] && rest == a[|u|..] + b
  {
    var s := a + b;
    assert a == s[..|a|] && b == s[|a|..] && u == s[..|u|] && rest == s[|u|..];
  }

  lemma {:induction false} SecretInPrefix(u: string, rest: string)
    requires u != "" && (rest == "" || Breaks(rest[0])) && ParamLength(u + rest).Some?
    ensures ParamLength(u).Some?
  {
    var s := u + rest;
    var name, r := ParamHasParts(s, ParamLength(s).value);
    var d, h := s[0], [s[0]] + name + "=";
    CutsCompare(h, r, u, rest);
    if |h| > |u| {
      HeadHasNoBreak(d, name, |u|);
      assert false;
    }
    SecretNameIsPlain(name);
    PartsAreParam(d, name, u[|h|..]);
  }

  lemma {:induction false} NoSecretTail(u: string)
    requires u != "" && NoSecretIn(u)
    ensures NoSecretIn(u[1..]) && ParamLength(u).None?
  {
    assert u[0..] == u;
    forall k | 0 <= k <= |u[1..]| ensures ParamLength(u[1..][k..]).None? { assert u[1..][k..] == u[k + 1..]; }
  }

  lemma {:induction false} NoSecretPrefixKept(u: string, rest: string)
    requires NoSecretIn(u) && (rest == "" || Breaks(rest[0]))
    ensures MaskParams(u + rest) == u + MaskParams(rest)
    decreases |u|
  {
    if u == "" { assert u + rest == rest; }
    else {
      NoSecretTail(u);
      NoSecretPrefixKept(u[1..], rest);
      SplitFirst(u, rest);
      SplitFirst(u, MaskParams(rest));
      if ParamLength(u + rest).Some? { SecretInPrefix(u, rest); }
      KeepsChar(u[0], u[1..] + rest);
    }
  }

  /** `key` with a prefix, joined by nothing, `_` or `-`. */
  predicate KeyWord(w: string, prefix: string) { w == prefix + "key" || w == prefix + "_key" || w == prefix + "-key" }

  lemma {:induction false} KeyWords(w: string)
    ensures KeyWord(w, "api") <==> w == "apikey" || w == "api_key" || w == "api-key"
    ensures KeyWord(w, "access") <==> w == "accesskey" || w == "access_key" || w == "access-key"
    ensures KeyWord(w, "private") <==> w == "privatekey" || w == "private_key" || w == "private-key"
  {
    assert "api" + "key" == "apikey" && "api" + "_key" == "api_key" && "api" + "-key" == "api-key";
    assert "access" + "key" == "accesskey" && "access" + "_key" == "access_key" && "access" + "-key" == "access-key";
    assert "private" + "key" == "privatekey" && "private" + "_key" == "private_key";
    assert "private" + "-key" == "private-key";
  }

  /** The parameter names that are masked, in any letter case. */
  predicate NamesSecret(w: string)
  {
    || w == "password" || w == "pwd" || w == "pass" || w == "secret" || w == "token"
    || KeyWord(w, "api") || KeyWord(w, "access")
  }

  lemma {:induction false} SecretParamNames(name: string)
    ensures IsSecretParam(name) <==> NamesSecret(Lower(name))
  {
    KeyWords(Lower(name));
  }

  /** A secret parameter starts at `?`, `&` or `;` and runs to the first `=`. */
  lemma {:induction false} ParamStartsIff(s: string)
    ensures ParamLength(s).Some? <==> exists d, name, rest :: StartsParam(s, d, name, rest)
  {
    if ParamLength(s).Some? {
      var name, rest := ParamHasParts(s, ParamLength(s).value);
      SecretParamNames(name);
      assert StartsParam(s, s[0], name, rest);
    }
    if d, name, rest :| StartsParam(s, d, name, rest) {
      SecretParamNames(name);
      SecretNameIsPlain(name);
      PartsAreParam(d, name, rest);
    }
  }

  predicate StartsParam(s: string, d: char, name: string, rest: string)
  {
    s == [d] + name + "=" + rest && (d == '?' || d == '&' || d == ';') && NamesSecret(Lower(name))
  }

  /** The first secret parameter of a text loses its value, up to the next `&` or `;`, and nothing before it changes. */
  lemma {:induction false} NamedParamIsMasked(pre: string, d: char, name: string, v: string, tail: string)
    requires NoSecretIn(pre) && (d == '?' || d == '&' || d == ';') && NamesSecret(Lower(name))
    requires forall i | 0 <= i < |v| :: v[i] != '&' && v[i] != ';'
    requires tail != "" ==> tail[0] == '&' || tail[0] == ';'
    ensures MaskParams(pre + ([d] + name + "=" + v + tail)) == pre + ([d] + name + "=" + "***" + MaskParams(tail))
  {
    SecretParamNames(name);
    NoSecretPrefixKept(pre, [d] + name + "=" + v + tail);
    MasksParam(d, name, v, tail);
  }

  /** A text without secret parameters is not changed. */
  lemma {:induction false} NoSecretNoChange(s: string)
    requires NoSecretIn(s)
    ensures MaskParams(s) == s
  {
    NoSecretPrefixKept(s, "");
    assert s + "" == s;
  }

  /** What masking makes of `q@host`: the `@` is shown, or it lies inside the value of a secret parameter. */
  datatype AtFate = Shown(before: string) | Swallowed(before: string, d: char, name: string)

  predicate FateOf(f: AtFate, q: string, host: string)
  {
    match f
    case Shown(x) => MaskParams(q + "@" + host) == x + "@" + MaskParams(host)
    case Swallowed(x, d, name) =>
      IsDelim(d) && IsSecretParam(name)
      && MaskParams(q + "@" + host) == x + ([d] + name + "=" + STARS) + MaskParams(host[ValueSpan(host)..])
  }

  lemma {:induction false} FateAfter(f: AtFate, q: string, q': string, h: string, host: string) returns (g: AtFate)
    requires FateOf(f, q', host) && MaskParams(q + "@" + host) == h + MaskParams(q' + "@" + host)
    ensures FateOf(g, q, host)
  {
    g := f.(before := h + f.before);
    match f
    case Shown(x) => PutBefore(h, x, "@", MaskParams(host));
    case Swallowed(x, d, name) => PutBefore(h, x, [d] + name + "=" + STARS, MaskParams(host[ValueSpan(host)..]));
  }

  lemma {:induction false} PutBefore(h: string, x: string, t: string, m: string)
    ensures h + (x + t + m) == h + x + t + m
  {
  }

  lemma {:induction false} AtFateOf(q: string, host: string) returns (f: AtFate)
    ensures FateOf(f, q, host)
    decreases |q|
  {
    var s := q + "@" + host;
    if q == "" {
      assert s == ['@'] + host;
      PlainCharKept('@', host);
      f := Shown("");
      assert "" + "@" + MaskParams(host) == ['@'] + MaskParams(host);
    } else if ParamLength(s).Some? {
      f := AtFateParam(q, host);
    } else {
      var rest := q[1..] + "@" + host;
      assert s == [q[0]] + rest;
      KeepsChar(q[0], rest);
      var g := AtFateOf(q[1..], host);
      f := FateAfter(g, q, q[1..], [q[0]], host);
    }
  }

  /** A secret parameter at the start of `q@host` ends inside `q`, or its value reaches over the `@`. */
  lemma {:induction false} ParamOverAt(q: string, host: string) returns (d: char, name: string, v: string, tail: string)
    requires q != "" && ParamLength(q + "@" + host).Some?
    ensures IsDelim(d) && IsSecretParam(name) && IsValue(v) && (tail == "" || EndsValue(tail[0]))
    ensures MaskParams(q + "@" + host) == [d] + name + "=" + STARS + MaskParams(tail)
    ensures var a := [d] + name + "=" + v;
      && (|a| <= |q| ==> tail == q[|a|..] + "@" + host)
      && (|a| > |q| ==> a[|q|] == '@' && "@" + host == a[|q|..] + tail)
  {
    var s := q + "@" + host;
    d := s[0];
    name, v, tail := SplitParam(s, ParamLength(s).value);
    CutsAtSign([d] + name + "=" + v, tail, q, host);
  }

  lemma {:induction false} CutsAtSign(a: string, b: string, q: string, host: string)
    requires a + b == q + "@" + host
    ensures |a| <= |q| ==> b == q[|a|..] + "@" + host
    ensures |a| > |q| ==> a[|q|] == '@' && "@" + host == a[|q|..] + b
  {
    assert q + "@" + host == q + ("@" + host);
    CutsCompare(a, b, q, "@" + host);
  }

  lemma {:induction false} AtFateParam(q: string, host: string) returns (f: AtFate)
    requires q != "" && ParamLength(q + "@" + host).Some?
    ensures FateOf(f, q, host)
    decreases |q|, 0
  {
    var d, name, v, tail := ParamOverAt(q, host);
    var a := [d] + name + "=" + v;
    if |a| <= |q| {
      var g := AtFateOf(q[|a|..], host);
      f := FateAfter(g, q, q[|a|..], [d] + name + "=" + STARS, host);
    } else {
      SwallowedRest(d, name, v, tail, q, host);
      f := Swallowed("", d, name);
      assert "" + ([d] + name + "=" + STARS) == [d] + name + "=" + STARS;
    }
  }

  lemma {:induction false} SwallowedRest(d: char, name: string, v: string, tail: string, q: string, host: string)
    requires IsSecretParam(name) && IsValue(v) && (tail == "" || EndsValue(tail[0])) && q != ""
    requires var a := [d] + name + "=" + v; |a| > |q| && a[|q|] == '@' && "@" + host == a[|q|..] + tail
    ensures tail == host[ValueSpan(host)..]
  {
    var h := [d] + name + "=";
    var a := h + v;
    if |q| < |h| {
      HeadHasNoBreak(d, name, |q|);
      assert false;
    }
    var v' := v[|q| - |h| + 1..];
    assert a[|q|..] == ['@'] + v';
    assert host == ("@" + host)[1..] == v' + tail;
    ValueSpanIs(v', tail);
  }

  lemma {:induction false} CancelRight(a: string, b: string, m: string)
    requires a + m == b + m
    ensures a == b
  {
    assert |a| == |b|;
    assert a == (a + m)[..|a|] == (b + m)[..|b|] == b;
  }

  /** The host up to its first `&` or `;` holds no secret parameter. */
  predicate PlainHead(host: string) { NoSecretIn(host[..ValueSpan(host)]) }

  /** What stands before another `@` is not masked away. */
  lemma {:induction false} AtIsSeen(q: string, host: string)
    requires PlainHead(host)
    ensures MaskParams(q + "@" + host) != MaskParams(host)
  {
    var h, rest := host[..ValueSpan(host)], host[ValueSpan(host)..];
    assert host == h + rest;
    NoSecretPrefixKept(h, rest);
    var f := AtFateOf(q, host);
    if f.Swallowed? { SwallowedIsSeen(h, rest, f.before, f.d, f.name); }
  }

  lemma {:induction false} SwallowedIsSeen(h: string, rest: string, x: string, d: char, name: string)
    requires NoSecretIn(h) && IsDelim(d) && IsSecretParam(name)
    ensures x + ([d] + name + "=" + STARS) + MaskParams(rest) != h + MaskParams(rest)
  {
    var t := [d] + name + "=" + STARS;
    if x + t + MaskParams(rest) == h + MaskParams(rest) {
      CancelRight(x + t, h, MaskParams(rest));
      assert h[|x|..] == t;
      SecretNameIsPlain(name);
      PartsAreParam(d, name, STARS);
      assert false;
    }
  }

  lemma {:induction false} CredsMaskTo(user: string, p: string, host: string)
    requires IsUser(user) && NoSecretIn(user) && NoneOf(p, '@')
    ensures MaskRest(user + ":" + p + "@" + host) == user + ([':'] + (STARS + "@" + MaskParams(host)))
  {
    AuthorityOfCreds(user, p, host);
    MaskText(user, host);
    NoSecretPrefixKept(user, [':'] + (STARS + "@" + host));
    PlainCharKept(':', STARS + "@" + host);
    StarsKept(host);
  }

  lemma {:induction false} SameMaskedCreds(user: string, x: string, y: string)
    ensures user + ([':'] + (STARS + "@" + x)) == user + ([':'] + (STARS + "@" + y)) <==> x == y
  {
    var h := user + [':'] + STARS + "@";
    assert user + ([':'] + (STARS + "@" + x)) == h + x;
    assert user + ([':'] + (STARS + "@" + y)) == h + y;
    assert (h + x)[|h|..] == x && (h + y)[|h|..] == y;
  }

  lemma {:induction false} SplitAtSign(user: string, p: string, host: string) returns (p': string, q: string)
    requires !NoneOf(p, '@')
    ensures NoneOf(p', '@') && p == p' + "@" + q
    ensures user + ":" + p + "@" + host == user + ":" + p' + "@" + (q + "@" + host)
  {
    var b := PassSpan(p);
    p', q := p[..b], p[b + 1..];
    SplitAt(p, b, '@');
  }

  lemma {:induction false} RestHidesPasswordIff(user: string, p: string, host: string)
    requires IsUser(user) && NoSecretIn(user) && PlainHead(host)
    ensures MaskRest(user + ":" + p + "@" + host) == MaskRest(user + ":" + STARS + "@" + host) <==> NoneOf(p, '@')
  {
    CredsMaskTo(user, STARS, host);
    if NoneOf(p, '@') { CredsMaskTo(user, p, host); }
    else {
      var p', q := SplitAtSign(user, p, host);
      CredsMaskTo(user, p', q + "@" + host);
      AtIsSeen(q, host);
      SameMaskedCreds(user, MaskParams(q + "@" + host), MaskParams(host));
    }
  }

  /**
    A password is hidden exactly when it holds no `@`: everything behind its first `@` is taken for the host. The user
    and the host up to its first `&` or `;` hold no secret parameter, which could blank the rest of the password.
   */
  lemma {:induction false} PasswordIsHiddenIff(s: string, n: nat, user: string, p: string, host: string)
    requires SchemeLength(s) == Some(n) && IsUser(user) && NoSecretIn(user) && PlainHead(host)
    requires NoSpace(user + ":" + p + "@" + host)
    ensures Mask(s[..n] + (user + ":" + p + "@" + host)) == Mask(s[..n] + (user + ":" + STARS + "@" + host))
       <==> NoneOf(p, '@')
  {
    var a, b := user + ":" + p + "@" + host, user + ":" + STARS + "@" + host;
    NoSpaceParts(user, p, host);
    MaskOfParts(s, n, a);
    MaskOfParts(s, n, b);
    RestHidesPasswordIff(user, p, host);
    assert (s[..n] + MaskRest(a))[n..] == MaskRest(a) && (s[..n] + MaskRest(b))[n..] == MaskRest(b);
  }

  /** Without parameters everything behind the first `@` is shown as it is. */
  lemma {:induction false} RestIsShown(s: string, n: nat, user: string, p: string, rest: string)
    requires SchemeLength(s) == Some(n) && IsUser(user) && NoneOf(p, '@') && NoSpace(user + ":" + p + "@" + rest)
    requires NoneOf(user + ":" + STARS + "@" + rest, '=')
    ensures Mask(s[..n] + (user + ":" + p + "@" + rest)) == s[..n] + (user + ":" + STARS + "@" + rest)
  {
    MaskOfParts(s, n, user + ":" + p + "@" + rest);
    AuthorityOfCreds(user, p, rest);
    NoEqualsNoChange(user + ":" + STARS + "@" + rest);
  }

  lemma {:induction false} AtSignTexts(user: string, p: string, rest: string)
    requires user == "u" && p == "p" && rest == "q@h"
    ensures IsUser(user) && NoneOf(p, '@') && NoSpace(user + ":" + p + "@" + rest)
    ensures NoneOf(user + ":" + STARS + "@" + rest, '=')
    ensures user + ":" + p + "@" + rest == "u:p@q@h" && user + ":" + STARS + "@" + rest == "u:***@q@h"
  {
  }

  /** `a://u:p@q@h` is masked to `a://u:***@q@h`, which shows the `q` of the password `p@q`. */
  lemma {:induction false} AtSignShowsPassword(s: string, from: string, to: string)
    requires s == "a://" && from == "u:p@q@h" && to == "u:***@q@h"
    ensures Mask(s + from) == s + to
  {
    var user, p, rest := "u", "p", "q@h";
    AtSignTexts(user, p, rest);
    ExampleScheme(s);
    assert s[..4] == s;
    RestIsShown(s, 4, user, p, rest);
  }

  /** Credentials that a second pass would still find, read off the input of the first. */
  predicate NeedsSecondPass(s: string)
  {
    UriLike(s) && HiddenCreds(MaskAuthority(s[SchemeLength(s).value..]))
  }

  /** One pass is enough exactly when no credentials are hidden behind a parameter value. */
  lemma {:induction false} MaskStableIff(s: string)
    ensures Mask(Mask(s)) == Mask(s) <==> !NeedsSecondPass(s)
  {
    if UriLike(s) {
      var n := SchemeLength(s).value;
      var out := MaskRest(s[n..]);
      RestStaysRest(s[n..]);
      MaskOfParts(s, n, out);
      RestStableIff(s[n..]);
      ExposedIffHidden(s[n..]);
      assert (s[..n] + out)[n..] == out && (s[..n] + MaskRest(out))[n..] == MaskRest(out);
    }
  }

  /** A URI whose host run holds no `?`, `&` or `;` needs no second pass. */
  lemma {:induction false} PlainHostIsStable(s: string)
    requires UriLike(s) ==> PlainHostRun(s[SchemeLength(s).value..])
    ensures Mask(Mask(s)) == Mask(s)
  {
    MaskStableIff(s);
    if UriLike(s) {
      PlainRunIsNotExposed(s[SchemeLength(s).value..]);
      ExposedIffHidden(s[SchemeLength(s).value..]);
    }
  }

  lemma {:induction false} EndAfterParam(d: char, name: string, v: string, tail: string)
    requires IsDelim(d) && IsSecretParam(name) && IsValue(v) && (tail == "" || EndsValue(tail[0]))
    ensures VisibleEnd([d] + name + "=" + v + tail) == VisibleEnd(tail)
  {
    var head := [d] + name + "=";
    var s := head + v + tail;
    SecretNameIsPlain(name);
    assert s == [d] + name + "=" + (v + tail);
    PartsAreParam(d, name, v + tail);
    assert s[|head|..] == v + tail;
    ValueSpanIs(v, tail);
    assert AfterValue(s, |head|) == tail;
  }

  lemma {:induction false} PlainAtIsVisible(s: string)
    requires NoneOf(s, '=') && !NoneOf(s, '@')
    ensures VisibleAt(s)
  {
    NoEqualsNoParam(s);
    if s[0] != '@' { PlainAtIsVisible(s[1..]); }
  }

  lemma {:induction false} EndAtColon(pass: string)
    requires NoneOf(pass, '=')
    ensures VisibleEnd(['&', ':'] + pass + ['@']) == [':'] + (pass + ['@'])
  {
    var tail, e := ['&', ':'] + pass + ['@'], [':'] + (pass + ['@']);
    NoEqualsNoParam(tail);
    assert tail[1..] == e;
    NoEqualsNoParam(e);
  }

  lemma {:induction false} HiddenBehindValue(d: char, name: string, w: string, pass: string)
    requires IsDelim(d) && IsSecretParam(name) && IsValue(w) && NoneOf(pass, '=') && NoneOf(pass, '@') && pass != STARS
    ensures HiddenCreds([d] + name + "=" + (['/'] + w) + (['&', ':'] + pass + ['@']))
  {
    EndAfterParam(d, name, ['/'] + w, ['&', ':'] + pass + ['@']);
    EndAtColon(pass);
    var z := pass + ['@'];
    assert ([':'] + z)[1..] == z;
    assert z[|pass|] == '@';
    PlainAtIsVisible(z);
    StarsPrefix(z, |pass|);
    assert z[..|pass|] == pass;
  }

  lemma {:induction false} SlashHidesCreds(d: char, name: string, rest: string)
    requires IsDelim(d) && IsSecretParam(name)
    ensures MaskAuthority([d] + name + "=" + (['/'] + rest)) == [d] + name + "=" + (['/'] + rest)
  {
    var u := [d] + name + "=";
    SecretNameIsUser(name);
    assert (u + (['/'] + rest))[|u|] == '/';
    UserSpanIs(u, ['/'] + rest);
  }

  lemma {:induction false} FamilyText(d: char, name: string, w: string, end: string)
    ensures [d] + name + "=" + (['/'] + w) + end == [d] + name + "=" + (['/'] + (w + end))
  {
  }

  lemma {:induction false} FamilyIsHidden(d: char, name: string, w: string, pass: string)
    requires IsDelim(d) && IsSecretParam(name) && IsValue(w) && NoneOf(pass, '=') && NoneOf(pass, '@') && pass != STARS
    ensures HiddenCreds(MaskAuthority([d] + name + "=" + (['/'] + w) + (['&', ':'] + pass + ['@'])))
  {
    HiddenBehindValue(d, name, w, pass);
    FamilyText(d, name, w, ['&', ':'] + pass + ['@']);
    SlashHidesCreds(d, name, w + (['&', ':'] + pass + ['@']));
  }

  lemma {:induction false} HiddenNeedsSecondPass(s: string, n: nat, r: string)
    requires SchemeLength(s) == Some(n) && r != "" && NoSpace(r) && HiddenCreds(MaskAuthority(r))
    ensures Mask(Mask(s[..n] + r)) != Mask(s[..n] + r)
  {
    MaskOfParts(s, n, r);
    assert (s[..n] + r)[n..] == r;
    MaskStableIff(s[..n] + r);
  }

  /** `scheme://?pwd=/…&:pass@`: blanking the value leaves a user `?pwd=***&` with a readable password. */
  lemma {:induction false} SecondPassChanges(s: string, n: nat, d: char, name: string, w: string, pass: string)
    requires SchemeLength(s) == Some(n) && IsDelim(d) && IsSecretParam(name) && IsValue(w)
    requires NoneOf(pass, '=') && NoneOf(pass, '@') && pass != STARS
    requires NoSpace([d] + name + "=" + (['/'] + w) + (['&', ':'] + pass + ['@']))
    ensures var uri := s[..n] + ([d] + name + "=" + (['/'] + w) + (['&', ':'] + pass + ['@']));
      Mask(Mask(uri)) != Mask(uri)
  {
    FamilyIsHidden(d, name, w, pass);
    HiddenNeedsSecondPass(s, n, [d] + name + "=" + (['/'] + w) + (['&', ':'] + pass + ['@']));
  }

  lemma {:induction false} ExampleScheme(s: string)
    requires s == "a://"
    ensures SchemeLength(s) == Some(4)
  {
    assert s == "a" + "://";
    SchemeSpanIs("a", "://");
    assert s[1..] == "://";
  }

  lemma {:induction false} ExampleText(d: char, name: string, v: string, end: string)
    requires d == '?' && name == "pwd" && v == ['/'] + "" && end == ['&', ':'] + "c" + ['@']
    ensures "a://?pwd=/&:c@" == "a://" + ([d] + name + "=" + v + end)
    ensures IsSecretParam(name) && NoSpace([d] + name + "=" + v + end)
  {
    assert Lower(name) == "pwd";
  }

  lemma {:induction false} SecondPassExample(uri: string)
    requires uri == "a://?pwd=/&:c@"
    ensures Mask(Mask(uri)) != Mask(uri)
  {
    var s, name, pass := "a://", "pwd", "c";
    ExampleScheme(s);
    ExampleText('?', name, ['/'] + "", ['&', ':'] + pass + ['@']);
    assert s[..4] == s;
    SecondPassChanges(s, 4, '?', name, "", pass);
  }
}
