/**
  Redaction of connection and channel configurations (redactConfig, backend/src/utils/redact.ts): secret-named keys
  are dropped and reported by path, URI-like strings are masked, everything else is copied.
 */
module Redact {
  import opened Wrappers
  import opened Identifiers
  import opened MaskUri

  /** A configuration value; an object lists its own entries in `Object.entries` order. */
  datatype Json =
    | Null | Undef | Bool(b: bool) | Num(n: real) | Str(s: string) | Arr(items: seq<Json>) | Obj(fields: seq<Field>)

  datatype Field = Field(key: string, val: Json)

  // ---- secret keys ----

  predicate NoLineEnd(s: string)
  {
    forall i | 0 <= i < |s| :: s[i] !in "\n\r" && s[i] as int != 0x2028 && s[i] as int != 0x2029
  }

  predicate Contains(s: string, w: string) { exists i | 0 <= i <= |s| :: w <= s[i..] }

  const SECRET_WORDS: set<string> :=
    {"pass", "pwd", "secret", "token", "apikey", "api_key", "api-key", "accesskey", "access_key", "access-key",
     "privatekey", "private_key", "private-key", "credential", "certificate", "sas"}

  /** The case-insensitive SECRET_KEY expression; its `.` stops at line ends. */
  predicate IsSecretKey(k: string)
  {
    (NoLineEnd(k) && exists w | w in SECRET_WORDS :: Contains(Lower(k), w)) || Lower(k) in {"authorization", "auth"}
  }

  lemma {:induction false} ContainsInside(a: string, s: string, b: string, w: string, i: nat)
    requires i <= |s| && w <= s[i..]
    ensures Contains(a + s + b, w)
  {
    assert (a + s + b)[|a| + i..] == s[i..] + b;
  }

  lemma {:induction false} LowerParts(a: string, s: string, b: string)
    ensures Lower(a + s + b) == Lower(a) + Lower(s) + Lower(b)
  {
  }

  lemma {:induction false} ParamHasSecretWord(name: string) returns (w: string, i: nat)
    requires IsSecretParam(name)
    ensures w in SECRET_WORDS && i <= |Lower(name)| && w <= Lower(name)[i..]
  {
    w, i := if Lower(name) == "password" then "pass" else Lower(name), 0;
  }

  lemma {:induction false} WordMakesSecret(k: string, w: string)
    requires NoLineEnd(k) && w in SECRET_WORDS && Contains(Lower(k), w)
    ensures IsSecretKey(k)
  {
  }

  lemma {:induction false} ParamHasNoLineEnd(name: string)
    requires IsSecretParam(name)
    ensures NoLineEnd(name)
  {
    assert forall j | 0 <= j < |name| :: Lower(name)[j] == LowerChar(name[j]);
  }

  /** What a secret key contains, in any letter case. */
  predicate IsSecretWord(w: string)
  {
    || w == "pass" || w == "pwd" || w == "secret" || w == "token"
    || w == "credential" || w == "certificate" || w == "sas"
    || KeyWord(w, "api") || KeyWord(w, "access") || KeyWord(w, "private")
  }

  /** No line feed, carriage return, line or paragraph separator. */
  predicate OneLine(k: string)
  {
    forall c | c in k :: c as int != 10 && c as int != 13 && c as int != 8232 && c as int != 8233
  }

  lemma {:induction false} OneLineIff(k: string)
    ensures OneLine(k) <==> NoLineEnd(k)
  {
    if OneLine(k) { assert forall i | 0 <= i < |k| :: k[i] in k; }
  }

  /** A secret key by its name: one of the words anywhere in it, on one line, or one of two whole names. */
  ghost predicate SecretByName(k: string)
  {
    || (OneLine(k) && exists a, w, b :: k == a + w + b && IsSecretWord(Lower(w)))
    || Lower(k) == "authorization" || Lower(k) == "auth"
  }

  lemma {:induction false} SecretWordsAre(w: string)
    ensures w in SECRET_WORDS <==> IsSecretWord(w)
  {
    KeyWords(w);
  }

  lemma {:induction false} LowerSlice(k: string, i: nat, j: nat)
    requires i <= j <= |k|
    ensures Lower(k[i..j]) == Lower(k)[i..j]
  {
  }

  lemma {:induction false} ContainedWord(k: string, w: string) returns (a: string, v: string, b: string)
    requires Contains(Lower(k), w)
    ensures k == a + v + b && Lower(v) == w
  {
    var i :| 0 <= i <= |k| && w <= Lower(k)[i..];
    a, v, b := k[..i], k[i..i + |w|], k[i + |w|..];
    LowerSlice(k, i, i + |w|);
    assert Lower(k)[i..i + |w|] == Lower(k)[i..][..|w|];
  }

  /** The keys that are dropped are exactly those named secret. */
  lemma {:induction false} SecretKeyIff(k: string)
    ensures IsSecretKey(k) <==> SecretByName(k)
  {
    OneLineIff(k);
    if IsSecretKey(k) && Lower(k) != "authorization" && Lower(k) != "auth" {
      var w :| w in SECRET_WORDS && Contains(Lower(k), w);
      SecretWordsAre(w);
      var a, v, b := ContainedWord(k, w);
    }
    if NoLineEnd(k) && exists a, w, b :: k == a + w + b && IsSecretWord(Lower(w)) {
      var a, w, b :| k == a + w + b && IsSecretWord(Lower(w));
      LowerParts(a, w, b);
      ContainsInside(Lower(a), Lower(w), Lower(b), Lower(w), 0);
      SecretWordsAre(Lower(w));
      WordMakesSecret(k, Lower(w));
    }
  }

  /** A key with one of the words in it is secret, whatever the case and whatever surrounds the word on its line. */
  lemma {:induction false} WordInside(a: string, w: string, b: string)
    requires IsSecretWord(Lower(w)) && NoLineEnd(a) && NoLineEnd(b)
    ensures IsSecretKey(a + w + b)
  {
    LowerHasNoLineEnd(w);
    assert NoLineEnd(a + w + b);
    SecretKeyIff(a + w + b);
  }

  /** Letters, `_` and `-` in lower case. */
  predicate WordChars(w: string) { forall i | 0 <= i < |w| :: 'a' <= w[i] <= 'z' || w[i] == '_' || w[i] == '-' }

  lemma {:induction false} PlainWordChars(w: string)
    requires w == "pass" || w == "pwd" || w == "secret" || w == "token"
    ensures WordChars(w)
  {
  }

  lemma {:induction false} LongWordChars(w: string)
    requires w == "credential" || w == "certificate" || w == "sas"
    ensures WordChars(w)
  {
  }

  lemma {:induction false} KeyWordChars(w: string, prefix: string)
    requires KeyWord(w, prefix) && WordChars(prefix)
    ensures WordChars(w)
  {
    assert WordChars("key") && WordChars("_key") && WordChars("-key");
  }

  lemma {:induction false} SecretWordChars(w: string)
    requires IsSecretWord(w)
    ensures WordChars(w)
  {
    if w == "pass" || w == "pwd" || w == "secret" || w == "token" { PlainWordChars(w); }
    else if w == "credential" || w == "certificate" || w == "sas" { LongWordChars(w); }
    else if KeyWord(w, "api") { KeyWordChars(w, "api"); }
    else if KeyWord(w, "access") { KeyWordChars(w, "access"); }
    else { KeyWordChars(w, "private"); }
  }

  lemma {:induction false} LowerHasNoLineEnd(w: string)
    requires IsSecretWord(Lower(w))
    ensures NoLineEnd(w)
  {
    SecretWordChars(Lower(w));
    assert forall j | 0 <= j < |w| :: Lower(w)[j] == LowerChar(w[j]);
  }

  /** Every parameter name that is masked in a URI is also dropped as a key, whatever surrounds it. */
  lemma {:induction false} SecretParamIsSecretKey(a: string, name: string, b: string)
    requires IsSecretParam(name) && NoLineEnd(a) && NoLineEnd(b)
    ensures IsSecretKey(a + name + b)
  {
    var w, i := ParamHasSecretWord(name);
    LowerParts(a, name, b);
    ContainsInside(Lower(a), Lower(name), Lower(b), w, i);
    ParamHasNoLineEnd(name);
    WordMakesSecret(a + name + b, w);
  }

  predicate Blank(v: Json) { v == Null || v == Undef || v == Str("") }

  predicate Removed(f: Field) { IsSecretKey(f.key) && !Blank(f.val) }

  // ---- what walk computes ----

  function Clean(v: Json): Json
    decreases v
  {
    match v
    case Arr(items) => Arr(CleanItems(items))
    case Obj(fields) => Obj(CleanFields(fields))
    case Str(s) => Str(Mask(s))
    case _ => v
  }

  function CleanItems(s: seq<Json>): (r: seq<Json>)
    ensures |r| == |s| && forall i | 0 <= i < |s| :: r[i] == Clean(s[i])
    decreases s
  {
    if s == [] then [] else [Clean(s[0])] + CleanItems(s[1..])
  }

  function CleanField(f: Field): seq<Field>
    decreases f, 0
  {
    if Removed(f) then [] else [Field(f.key, Clean(f.val))]
  }

  function CleanFields(s: seq<Field>): seq<Field>
    decreases s
  {
    if s == [] then [] else CleanField(s[0]) + CleanFields(s[1..])
  }

  // ---- places in a value ----

  datatype Step = Index(i: nat) | Key(k: string)

  function Lookup(fs: seq<Field>, k: string): Option<Json>
  {
    if fs == [] then None else if fs[0].key == k then Some(fs[0].val) else Lookup(fs[1..], k)
  }

  function Child(v: Json, s: Step): Option<Json>
  {
    match (v, s)
    case (Arr(items), Index(i)) => if i < |items| then Some(items[i]) else None
    case (Obj(fields), Key(k)) => Lookup(fields, k)
    case _ => None
  }

  function At(v: Json, p: seq<Step>): Option<Json>
    decreases |p|
  {
    if p == [] then Some(v)
    else match Child(v, p[0])
      case Some(c) => At(c, p[1..])
      case None => None
  }

  /** At this place sits a secret-named entry with a value worth hiding. */
  predicate SecretSpot(v: Json, p: seq<Step>)
  {
    p != [] && p[|p| - 1].Key? && IsSecretKey(p[|p| - 1].k) && At(v, p).Some? && !Blank(At(v, p).value)
  }

  /** The place is a secret spot or lies inside one. */
  ghost predicate Hidden(v: Json, p: seq<Step>) { exists n | 0 < n <= |p| :: SecretSpot(v, p[..n]) }

  /** A secret spot that lies inside no other. */
  ghost predicate TopSpot(v: Json, p: seq<Step>)
  {
    SecretSpot(v, p) && forall n | 0 < n < |p| :: !SecretSpot(v, p[..n])
  }

  /** As in every JavaScript object, no object holds a key twice. */
  ghost predicate DistinctKeys(v: Json)
    decreases v
  {
    match v
    case Arr(items) => forall i | 0 <= i < |items| :: DistinctKeys(items[i])
    case Obj(fields) => KeysDiffer(fields) && forall i | 0 <= i < |fields| :: DistinctKeys(fields[i].val)
    case _ => true
  }

  ghost predicate KeysDiffer(fs: seq<Field>) { forall i, j | 0 <= i < j < |fs| :: fs[i].key != fs[j].key }

  // ---- the removed places, in traversal order, and their text ----

  function Under(s: Step, ps: seq<seq<Step>>): (r: seq<seq<Step>>)
    ensures |r| == |ps| && forall i | 0 <= i < |ps| :: r[i] == [s] + ps[i]
  {
    seq(|ps|, i requires 0 <= i < |ps| => [s] + ps[i])
  }

  function Removals(v: Json): seq<seq<Step>>
    decreases v
  {
    match v
    case Arr(items) => RemovalsFromItem(items, 0)
    case Obj(fields) => RemovalsFromField(fields, 0)
    case _ => []
  }

  function RemovalsFromItem(items: seq<Json>, n: nat): seq<seq<Step>>
    requires n <= |items|
    decreases items, |items| - n
  {
    if n == |items| then [] else Under(Index(n), Removals(items[n])) + RemovalsFromItem(items, n + 1)
  }

  function RemovalsOfField(f: Field): seq<seq<Step>>
    decreases f, 0
  {
    if Removed(f) then [[Key(f.key)]] else Under(Key(f.key), Removals(f.val))
  }

  function RemovalsFromField(fs: seq<Field>, n: nat): seq<seq<Step>>
    requires n <= |fs|
    decreases fs, |fs| - n
  {
    if n == |fs| then [] else RemovalsOfField(fs[n]) + RemovalsFromField(fs, n + 1)
  }

  function Decimal(n: nat): string
  {
    (if n < 10 then "" else Decimal(n / 10)) + [(n % 10 + '0' as int) as char]
  }

  /** `${path}[${i}]`, and `path ? `${path}.${k}` : k`. */
  function Extend(path: string, s: Step): string
  {
    match s
    case Index(i) => path + "[" + Decimal(i) + "]"
    case Key(k) => if path != "" then path + "." + k else k
  }

  function PathText(path: string, p: seq<Step>): string
    decreases |p|
  {
    if p == [] then path else PathText(Extend(path, p[0]), p[1..])
  }

  function Report(path: string, ps: seq<seq<Step>>): (r: seq<string>)
    ensures |r| == |ps| && forall i | 0 <= i < |ps| :: r[i] == PathText(path, ps[i])
  {
    seq(|ps|, i requires 0 <= i < |ps| => PathText(path, ps[i]))
  }

  lemma {:induction false} ReportConcat(path: string, a: seq<seq<Step>>, b: seq<seq<Step>>)
    ensures Report(path, a + b) == Report(path, a) + Report(path, b)
  {
  }

  lemma {:induction false} ReportUnder(path: string, s: Step, ps: seq<seq<Step>>)
    ensures Report(path, Under(s, ps)) == Report(Extend(path, s), ps)
  {
    forall i | 0 <= i < |ps| ensures PathText(path, [s] + ps[i]) == PathText(Extend(path, s), ps[i]) {
      assert ([s] + ps[i])[1..] == ps[i];
    }
  }

  /** What a report still has to add from entry `i` on, by its first entry. */
  lemma {:induction false} ReportItemStep(path: string, items: seq<Json>, i: nat)
    requires i < |items|
    ensures Report(path, RemovalsFromItem(items, i))
         == Report(Extend(path, Index(i)), Removals(items[i])) + Report(path, RemovalsFromItem(items, i + 1))
    ensures CleanItems(items[i..]) == [Clean(items[i])] + CleanItems(items[i + 1..])
  {
    ReportConcat(path, Under(Index(i), Removals(items[i])), RemovalsFromItem(items, i + 1));
    ReportUnder(path, Index(i), Removals(items[i]));
    assert items[i..][1..] == items[i + 1..];
  }

  function FieldReport(path: string, f: Field): seq<string>
  {
    if Removed(f) then [Extend(path, Key(f.key))] else Report(Extend(path, Key(f.key)), Removals(f.val))
  }

  lemma {:induction false} ReportFieldStep(path: string, fs: seq<Field>, i: nat)
    requires i < |fs|
    ensures Report(path, RemovalsFromField(fs, i))
         == FieldReport(path, fs[i]) + Report(path, RemovalsFromField(fs, i + 1))
    ensures CleanFields(fs[i..]) == CleanField(fs[i]) + CleanFields(fs[i + 1..])
  {
    ReportConcat(path, RemovalsOfField(fs[i]), RemovalsFromField(fs, i + 1));
    ReportOfField(path, fs[i]);
    assert fs[i..][1..] == fs[i + 1..];
  }

  lemma {:induction false} ReportOfField(path: string, f: Field)
    ensures Report(path, RemovalsOfField(f)) == FieldReport(path, f)
  {
    if Removed(f) {
      assert PathText(path, [Key(f.key)]) == PathText(Extend(path, Key(f.key)), []);
    } else {
      ReportUnder(path, Key(f.key), Removals(f.val));
    }
  }

  lemma {:induction false} Advance<T>(done: seq<T>, now: seq<T>, rest: seq<T>, left: seq<T>, all: seq<T>)
    requires done + left == all && left == now + rest
    ensures done + now + rest == all
  {
  }

  // ---- the reported text names the place ----

  function ValueOf(s: string): int
  {
    if s == "" then 0 else ValueOf(s[..|s| - 1]) * 10 + (s[|s| - 1] as int - '0' as int)
  }

  lemma {:induction false} LastDigit(n: nat) returns (head: string, c: char)
    ensures head == (if n < 10 then "" else Decimal(n / 10)) && Decimal(n) == head + [c]
    ensures '0' <= c <= '9' && c as int - '0' as int == n % 10
  {
    head, c := if n < 10 then "" else Decimal(n / 10), (n % 10 + '0' as int) as char;
  }

  lemma {:induction false} ValueOfMore(head: string, c: char)
    ensures ValueOf(head + [c]) == ValueOf(head) * 10 + (c as int - '0' as int)
  {
    assert (head + [c])[..|head|] == head;
  }

  /** `${i}`: decimal digits that read as the index, with no leading zero. */
  lemma {:induction false} DecimalReads(n: nat)
    ensures Decimal(n) != "" && ValueOf(Decimal(n)) == n && (n > 0 ==> Decimal(n)[0] != '0')
    ensures forall i | 0 <= i < |Decimal(n)| :: '0' <= Decimal(n)[i] <= '9'
  {
    var head, c := LastDigit(n);
    ValueOfMore(head, c);
    if n >= 10 { DecimalReads(n / 10); }
  }

  function Piece(s: Step): string
  {
    match s
    case Index(i) => "[" + Decimal(i) + "]"
    case Key(k) => "." + k
  }

  function Pieces(p: seq<Step>): string
  {
    if p == [] then "" else Piece(p[0]) + Pieces(p[1..])
  }

  lemma {:induction false} TextIsPieces(path: string, p: seq<Step>)
    requires path != ""
    ensures PathText(path, p) == path + Pieces(p)
    decreases |p|
  {
    if p != [] {
      ExtendIsPiece(path, p[0]);
      TextIsPieces(Extend(path, p[0]), p[1..]);
      JoinPieces(path, Piece(p[0]), Pieces(p[1..]));
    }
  }

  lemma {:induction false} ExtendIsPiece(path: string, s: Step)
    requires path != ""
    ensures Extend(path, s) == path + Piece(s) && Extend(path, s) != ""
  {
  }

  lemma {:induction false} JoinPieces(a: string, b: string, c: string)
    ensures a + b + c == a + (b + c)
  {
  }

  /** A report reads `key`, `.key` for each key further in, and `[i]` for each index. */
  lemma {:induction false} TextFromRoot(s: Step, rest: seq<Step>)
    requires s == Key("") ==> rest == []
    ensures PathText("", [s] + rest) == (if s.Key? then s.k else "[" + Decimal(s.i) + "]") + Pieces(rest)
  {
    assert ([s] + rest)[1..] == rest;
    var t := Extend("", s);
    if t != "" { TextIsPieces(t, rest); }
    if s.Index? { assert t == "[" + Decimal(s.i) + "]"; }
  }

  predicate Separates(c: char) { c == '.' || c == '[' }

  /** Keys without `.` and `[`, and not empty. */
  predicate PlainStep(s: Step) { s.Key? ==> s.k != "" && forall i | 0 <= i < |s.k| :: !Separates(s.k[i]) }

  predicate PlainSteps(p: seq<Step>) { forall i | 0 <= i < |p| :: PlainStep(p[i]) }

  lemma {:induction false} PiecesStart(p: seq<Step>)
    ensures p != [] ==> Pieces(p) != "" && Separates(Pieces(p)[0])
  {
  }

  lemma {:induction false} SameRun(a: string, x: string, b: string, y: string)
    requires a + x == b + y
    requires (forall i | 0 <= i < |a| :: !Separates(a[i])) && (x == "" || Separates(x[0]))
    requires (forall i | 0 <= i < |b| :: !Separates(b[i])) && (y == "" || Separates(y[0]))
    ensures a == b && x == y
  {
    CutsCompare(a, x, b, y);
    CutsCompare(b, y, a, x);
    assert |a| == |b|;
    assert a == (a + x)[..|a|] == b && x == (a + x)[|a|..] == y;
  }

  lemma {:induction false} SameIndex(i: nat, x: string, j: nat, y: string)
    requires "[" + Decimal(i) + "]" + x == "[" + Decimal(j) + "]" + y
    ensures i == j && x == y
  {
    var d, e := Decimal(i), Decimal(j);
    DecimalReads(i);
    DecimalReads(j);
    BracketCut(d, x, e, y);
  }

  lemma {:induction false} BracketCut(d: string, x: string, e: string, y: string)
    requires "[" + d + "]" + x == "[" + e + "]" + y
    requires (forall i | 0 <= i < |d| :: d[i] != ']') && (forall i | 0 <= i < |e| :: e[i] != ']')
    ensures d == e && x == y
  {
    var s := "[" + d + "]" + x;
    assert s[1 + |d|] == ']' && s[1 + |e|] == ']';
    assert forall i | 0 <= i < |d| :: s[1 + i] == d[i];
    assert forall i | 0 <= i < |e| :: s[1 + i] == e[i];
    assert |d| == |e|;
    assert d == s[1..1 + |d|] == e && x == s[2 + |d|..] == y;
  }

  lemma {:induction false} PiecesTell(p: seq<Step>, q: seq<Step>)
    requires PlainSteps(p) && PlainSteps(q) && Pieces(p) == Pieces(q)
    ensures p == q
    decreases |p|
  {
    PiecesStart(p);
    PiecesStart(q);
    if p != [] && q != [] {
      PiecesStart(p[1..]);
      PiecesStart(q[1..]);
      SameFirstPiece(p[0], Pieces(p[1..]), q[0], Pieces(q[1..]));
      PiecesTell(p[1..], q[1..]);
      assert p == [p[0]] + p[1..] && q == [q[0]] + q[1..];
    }
  }

  lemma {:induction false} SameKeyPiece(k: string, x: string, l: string, y: string)
    requires PlainStep(Key(k)) && PlainStep(Key(l)) && "." + k + x == "." + l + y
    requires (x == "" || Separates(x[0])) && (y == "" || Separates(y[0]))
    ensures k == l && x == y
  {
    assert ("." + k + x)[1..] == k + x && ("." + l + y)[1..] == l + y;
    SameRun(k, x, l, y);
  }

  lemma {:induction false} KeyPieceIsNoIndexPiece(k: string, x: string, i: nat, y: string)
    ensures "." + k + x != "[" + Decimal(i) + "]" + y
  {
    assert ("." + k + x)[0] == '.' && ("[" + Decimal(i) + "]" + y)[0] == '[';
  }

  lemma {:induction false} SameFirstPiece(s: Step, x: string, t: Step, y: string)
    requires PlainStep(s) && PlainStep(t) && Piece(s) + x == Piece(t) + y
    requires (x == "" || Separates(x[0])) && (y == "" || Separates(y[0]))
    ensures s == t && x == y
  {
    if s.Key? && t.Key? { SameKeyPiece(s.k, x, t.k, y); }
    else if s.Index? && t.Index? { SameIndex(s.i, x, t.i, y); }
    else if s.Key? { KeyPieceIsNoIndexPiece(s.k, x, t.i, y); }
    else { KeyPieceIsNoIndexPiece(t.k, y, s.i, x); }
  }

  /** With such keys a reported text names one place only. */
  lemma {:induction false} ReportNamesPlace(p: seq<Step>, q: seq<Step>)
    requires p != [] && q != [] && PlainSteps(p) && PlainSteps(q) && PathText("", p) == PathText("", q)
    ensures p == q
  {
    var x, y := Pieces(p[1..]), Pieces(q[1..]);
    assert p == [p[0]] + p[1..] && q == [q[0]] + q[1..];
    TextFromRoot(p[0], p[1..]);
    TextFromRoot(q[0], q[1..]);
    PiecesStart(p[1..]);
    PiecesStart(q[1..]);
    if p[0].Key? && q[0].Key? { SameRun(p[0].k, x, q[0].k, y); }
    else if p[0].Index? && q[0].Index? { SameIndex(p[0].i, x, q[0].i, y); }
    else if p[0].Key? { KeyTextIsNoIndexText(p[0].k, x, q[0].i, y); }
    else { KeyTextIsNoIndexText(q[0].k, y, p[0].i, x); }
    PiecesTell(p[1..], q[1..]);
  }

  lemma {:induction false} KeyIsNoIndex(k: string, x: string, y: string)
    requires PlainStep(Key(k))
    ensures k + x != "[" + y
  {
    assert (k + x)[0] == k[0] && ("[" + y)[0] == '[';
  }

  lemma {:induction false} KeyTextIsNoIndexText(k: string, x: string, i: nat, y: string)
    requires PlainStep(Key(k))
    ensures k + x != "[" + Decimal(i) + "]" + y
  {
    KeyIsNoIndex(k, x, Decimal(i) + "]" + y);
    assert "[" + Decimal(i) + "]" + y == "[" + (Decimal(i) + "]" + y);
  }

  /** A key with a dot in it is reported like two keys. */
  lemma {:induction false} DottedKeyIsAmbiguous(a: string, b: string)
    requires a != ""
    ensures PathText("", [Key(a + "." + b)]) == PathText("", [Key(a), Key(b)])
  {
    TextFromRoot(Key(a + "." + b), []);
    TextFromRoot(Key(a), [Key(b)]);
    assert [Key(a + "." + b)] + [] == [Key(a + "." + b)] && [Key(a)] + [Key(b)] == [Key(a), Key(b)];
    assert [Key(b)][1..] == [];
    assert a + ("." + b + "") == a + "." + b + "";
  }

  // ---- the recursive walk ----

  class Redactor {
    var redactedKeys: seq<string>

    constructor ()
      ensures redactedKeys == []
    {
      redactedKeys := [];
    }

    method Walk(v: Json, path: string) returns (r: Json)
      modifies this
      ensures r == Clean(v) && redactedKeys == old(redactedKeys) + Report(path, Removals(v))
      decreases v, 0
    {
      match v
      case Arr(items) =>
        var out := WalkItems(items, path);
        r := Arr(out);
      case Obj(fields) =>
        var out := WalkFields(fields, path);
        r := Obj(out);
      case Str(s) =>
        r := Str(Mask(s));
      case _ =>
        r := v;
    }

    method WalkItems(items: seq<Json>, path: string) returns (out: seq<Json>)
      modifies this
      ensures out == CleanItems(items) && redactedKeys == old(redactedKeys) + Report(path, RemovalsFromItem(items, 0))
      decreases items, 0
    {
      out := [];
      ghost var all := redactedKeys + Report(path, RemovalsFromItem(items, 0));
      assert items[0..] == items;
      for i := 0 to |items|
        invariant out + CleanItems(items[i..]) == CleanItems(items)
        invariant redactedKeys + Report(path, RemovalsFromItem(items, i)) == all
      {
        ReportItemStep(path, items, i);
        ghost var was := redactedKeys;
        var w := Walk(items[i], path + "[" + Decimal(i) + "]");
        Advance(was, Report(Extend(path, Index(i)), Removals(items[i])), Report(path, RemovalsFromItem(items, i + 1)),
                Report(path, RemovalsFromItem(items, i)), all);
        Advance(out, [w], CleanItems(items[i + 1..]), CleanItems(items[i..]), CleanItems(items));
        out := out + [w];
      }
    }

    method WalkFields(fields: seq<Field>, path: string) returns (out: seq<Field>)
      modifies this
      ensures out == CleanFields(fields)
      ensures redactedKeys == old(redactedKeys) + Report(path, RemovalsFromField(fields, 0))
      decreases fields, 0
    {
      out := [];
      ghost var all := redactedKeys + Report(path, RemovalsFromField(fields, 0));
      assert fields[0..] == fields;
      for i := 0 to |fields|
        invariant out + CleanFields(fields[i..]) == CleanFields(fields)
        invariant redactedKeys + Report(path, RemovalsFromField(fields, i)) == all
      {
        ReportFieldStep(path, fields, i);
        ghost var was, kept := redactedKeys, out;
        var f := fields[i];
        var here := if path != "" then path + "." + f.key else f.key;
        if IsSecretKey(f.key) && f.val != Null && f.val != Undef && f.val != Str("") {
          redactedKeys := redactedKeys + [here];
          assert out + [] == out;
        } else {
          var w := Walk(f.val, here);
          out := out + [Field(f.key, w)];
        }
        Advance(was, FieldReport(path, f), Report(path, RemovalsFromField(fields, i + 1)),
                Report(path, RemovalsFromField(fields, i)), all);
        Advance(kept, CleanField(f), CleanFields(fields[i + 1..]), CleanFields(fields[i..]), CleanFields(fields));
      }
    }
  }

  // ---- places, one step at a time ----

  lemma {:induction false} AtStep(v: Json, s: Step, rest: seq<Step>)
    ensures At(v, [s] + rest) == if Child(v, s).Some? then At(Child(v, s).value, rest) else None
  {
    assert ([s] + rest)[1..] == rest;
  }

  lemma {:induction false} SpotStep(v: Json, s: Step, rest: seq<Step>)
    requires rest != []
    ensures SecretSpot(v, [s] + rest) <==> Child(v, s).Some? && SecretSpot(Child(v, s).value, rest)
  {
    AtStep(v, s, rest);
    assert ([s] + rest)[|rest|] == rest[|rest| - 1];
  }

  lemma {:induction false} SpotOfChild(v: Json, s: Step)
    ensures SecretSpot(v, [s]) <==> s.Key? && IsSecretKey(s.k) && Child(v, s).Some? && !Blank(Child(v, s).value)
  {
    AtStep(v, s, []);
    assert [s] + [] == [s];
  }

  lemma {:induction false} PrefixStep(s: Step, rest: seq<Step>, n: nat)
    requires 0 < n <= |rest| + 1
    ensures ([s] + rest)[..n] == [s] + rest[..n - 1]
  {
  }

  lemma {:induction false} HiddenStep(v: Json, s: Step, rest: seq<Step>)
    ensures Hidden(v, [s] + rest) <==> SecretSpot(v, [s]) || (Child(v, s).Some? && Hidden(Child(v, s).value, rest))
  {
    var p := [s] + rest;
    assert p[..1] == [s];
    if Hidden(v, p) && !SecretSpot(v, [s]) {
      var n :| 0 < n <= |p| && SecretSpot(v, p[..n]);
      PrefixStep(s, rest, n);
      assert n > 1;
      SpotStep(v, s, rest[..n - 1]);
    }
    if Child(v, s).Some? && Hidden(Child(v, s).value, rest) {
      var n :| 0 < n <= |rest| && SecretSpot(Child(v, s).value, rest[..n]);
      PrefixStep(s, rest, n + 1);
      SpotStep(v, s, rest[..n]);
    }
  }

  lemma {:induction false} TopStep(v: Json, s: Step, rest: seq<Step>)
    requires rest != []
    ensures TopSpot(v, [s] + rest) <==> !SecretSpot(v, [s]) && Child(v, s).Some? && TopSpot(Child(v, s).value, rest)
  {
    var p := [s] + rest;
    SpotStep(v, s, rest);
    assert p[..1] == [s];
    if TopSpot(v, p) {
      forall n | 0 < n < |rest| ensures !SecretSpot(Child(v, s).value, rest[..n]) {
        PrefixStep(s, rest, n + 1);
        SpotStep(v, s, rest[..n]);
      }
    }
    if !SecretSpot(v, [s]) && Child(v, s).Some? && TopSpot(Child(v, s).value, rest) {
      forall n | 0 < n < |p| ensures !SecretSpot(v, p[..n]) {
        PrefixStep(s, rest, n);
        if n > 1 { SpotStep(v, s, rest[..n - 1]); }
      }
    }
  }

  // ---- objects by key ----

  lemma {:induction false} LookupAt(fs: seq<Field>, j: nat)
    requires KeysDiffer(fs) && j < |fs|
    ensures Lookup(fs, fs[j].key) == Some(fs[j].val)
  {
    if j > 0 { LookupAt(fs[1..], j - 1); }
  }

  lemma {:induction false} LookupFinds(fs: seq<Field>, k: string) returns (j: nat)
    ensures Lookup(fs, k).Some? ==> j < |fs| && fs[j].key == k && fs[j].val == Lookup(fs, k).value
  {
    j := 0;
    if fs != [] && fs[0].key != k {
      var i := LookupFinds(fs[1..], k);
      j := i + 1;
    }
  }

  lemma {:induction false} LookupMisses(fs: seq<Field>, k: string)
    requires forall j | 0 <= j < |fs| :: fs[j].key != k
    ensures Lookup(fs, k).None?
  {
    if fs != [] { LookupMisses(fs[1..], k); }
  }

  /** Cleaning adds no key. */
  lemma {:induction false} CleanKeepsKeys(fs: seq<Field>, f: Field)
    requires f in CleanFields(fs)
    ensures exists j | 0 <= j < |fs| :: fs[j].key == f.key && !Removed(fs[j]) && f.val == Clean(fs[j].val)
  {
    if f in CleanField(fs[0]) { assert fs[0].key == f.key; }
    else {
      CleanKeepsKeys(fs[1..], f);
      var j :| 0 <= j < |fs[1..]| && fs[1..][j].key == f.key && !Removed(fs[1..][j]) && f.val == Clean(fs[1..][j].val);
      assert fs[j + 1] == fs[1..][j];
    }
  }

  lemma {:induction false} LookupConcat(f: Field, tail: seq<Field>, k: string)
    ensures Lookup(CleanField(f) + tail, k) == if f.key == k && !Removed(f) then Some(Clean(f.val)) else Lookup(tail, k)
  {
    if Removed(f) { assert CleanField(f) + tail == tail; }
    else { assert (CleanField(f) + tail)[1..] == tail; }
  }

  /** Looking a key up in a cleaned object. */
  lemma {:induction false} LookupClean(fs: seq<Field>, k: string)
    requires KeysDiffer(fs)
    ensures Lookup(CleanFields(fs), k) ==
      match Lookup(fs, k)
      case Some(x) => if Removed(Field(k, x)) then None else Some(Clean(x))
      case None => None
  {
    if fs != [] {
      var tail := CleanFields(fs[1..]);
      LookupClean(fs[1..], k);
      if fs[0].key == k {
        assert fs[0] == Field(k, fs[0].val);
        LookupMisses(fs[1..], k);
      }
      assert CleanFields(fs) == CleanField(fs[0]) + tail;
      LookupConcat(fs[0], tail, k);
    }
  }

  // ---- a cleaned value, place by place ----

  lemma {:induction false} ChildOfClean(v: Json, s: Step)
    requires DistinctKeys(v)
    ensures Child(Clean(v), s) ==
      if SecretSpot(v, [s]) || Child(v, s).None? then None else Some(Clean(Child(v, s).value))
  {
    SpotOfChild(v, s);
    if v.Obj? && s.Key? { LookupClean(v.fields, s.k); }
  }

  lemma {:induction false} ChildIsDistinct(v: Json, s: Step)
    requires DistinctKeys(v) && Child(v, s).Some?
    ensures DistinctKeys(Child(v, s).value)
  {
    if v.Obj? { var j := LookupFinds(v.fields, s.k); }
  }

  /** Whatever is not hidden keeps its place, and only its strings are masked; whatever is hidden is gone. */
  lemma {:induction false} KeptInPlace(v: Json, p: seq<Step>)
    requires DistinctKeys(v)
    ensures At(Clean(v), p) == if Hidden(v, p) || At(v, p).None? then None else Some(Clean(At(v, p).value))
    decreases |p|
  {
    if p != [] {
      var s, rest := p[0], p[1..];
      assert p == [s] + rest;
      HiddenStep(v, s, rest);
      ChildOfClean(v, s);
      if Child(v, s).Some? {
        ChildIsDistinct(v, s);
        KeptInPlace(Child(v, s).value, rest);
      }
    }
  }

  /** What that means for each kind of value: strings are masked, arrays keep their length, the rest is unchanged. */
  lemma {:induction false} ValuesInPlace(v: Json, p: seq<Step>)
    requires DistinctKeys(v) && At(v, p).Some? && !Hidden(v, p)
    ensures At(Clean(v), p).Some?
    ensures var x, y := At(v, p).value, At(Clean(v), p).value;
      && (x.Str? ==> y == Str(Mask(x.s)))
      && (x == Null || x == Undef || x.Bool? || x.Num? ==> y == x)
      && (x.Arr? ==> y.Arr? && |y.items| == |x.items|)
      && (x.Obj? ==> y.Obj?)
  {
    KeptInPlace(v, p);
  }

  lemma {:induction false} BlankIsKept(v: Json)
    requires Blank(v)
    ensures Clean(v) == v
  {
  }

  lemma {:induction false} SpotIsHidden(v: Json, p: seq<Step>)
    requires SecretSpot(v, p)
    ensures Hidden(v, p)
  {
    assert p[..|p|] == p;
  }

  /** No secret-named key with a value survives, at any depth. */
  lemma {:induction false} NoSecretSurvives(v: Json, p: seq<Step>)
    requires DistinctKeys(v)
    ensures !SecretSpot(Clean(v), p)
  {
    KeptInPlace(v, p);
    if At(v, p).Some? && Blank(At(v, p).value) { BlankIsKept(At(v, p).value); }
    if SecretSpot(v, p) { SpotIsHidden(v, p); }
  }

  lemma {:induction false} CleanedKeysDiffer(fs: seq<Field>)
    requires KeysDiffer(fs)
    ensures KeysDiffer(CleanFields(fs))
  {
    if fs != [] {
      CleanedKeysDiffer(fs[1..]);
      forall f | f in CleanFields(fs[1..]) ensures f.key != fs[0].key { CleanKeepsKeys(fs[1..], f); }
    }
  }

  lemma {:induction false} CleanIsDistinct(v: Json)
    requires DistinctKeys(v)
    ensures DistinctKeys(Clean(v))
    decreases v
  {
    match v
    case Arr(items) =>
      forall i | 0 <= i < |items| ensures DistinctKeys(CleanItems(items)[i]) { CleanIsDistinct(items[i]); }
    case Obj(fs) =>
      CleanedKeysDiffer(fs);
      forall j | 0 <= j < |fs| ensures DistinctKeys(Clean(fs[j].val)) { CleanIsDistinct(fs[j].val); }
      forall f | f in CleanFields(fs) ensures DistinctKeys(f.val) { CleanKeepsKeys(fs, f); }
    case _ =>
  }

  // ---- the report names exactly the topmost secret spots, in order ----

  lemma {:induction false} UnderHas(s: Step, ps: seq<seq<Step>>, t: Step, rest: seq<Step>)
    ensures [t] + rest in Under(s, ps) <==> t == s && rest in ps
  {
    if t == s && rest in ps {
      var i :| 0 <= i < |ps| && ps[i] == rest;
      assert Under(s, ps)[i] == [t] + rest;
    }
    if [t] + rest in Under(s, ps) {
      var i :| 0 <= i < |ps| && Under(s, ps)[i] == [t] + rest;
      assert ([s] + ps[i])[0] == s && ([s] + ps[i])[1..] == ps[i] && ([t] + rest)[1..] == rest;
    }
  }

  lemma {:induction false} ItemRemovalsHave(items: seq<Json>, n: nat, t: Step, rest: seq<Step>)
    requires n <= |items|
    ensures [t] + rest in RemovalsFromItem(items, n) <==> t.Index? && n <= t.i < |items| && rest in Removals(items[t.i])
    decreases |items| - n
  {
    if n < |items| {
      UnderHas(Index(n), Removals(items[n]), t, rest);
      ItemRemovalsHave(items, n + 1, t, rest);
    }
  }

  lemma {:induction false} FieldRemovalsHaveOne(f: Field, t: Step, rest: seq<Step>)
    ensures [t] + rest in RemovalsOfField(f) <==>
              t == Key(f.key) && if Removed(f) then rest == [] else rest in Removals(f.val)
  {
    if Removed(f) {
      assert [t] + rest == [Key(f.key)] <==> t == Key(f.key) && rest == [] by {
        if [t] + rest == [Key(f.key)] { assert ([t] + rest)[0] == Key(f.key) && |[t] + rest| == 1; }
      }
    } else {
      UnderHas(Key(f.key), Removals(f.val), t, rest);
    }
  }

  lemma {:induction false} FieldRemovalsHave(fs: seq<Field>, n: nat, p: seq<Step>)
    requires n <= |fs|
    ensures p in RemovalsFromField(fs, n) <==> exists j | n <= j < |fs| :: p in RemovalsOfField(fs[j])
    decreases |fs| - n
  {
    if n < |fs| {
      FieldRemovalsHave(fs, n + 1, p);
      InConcat(p, RemovalsOfField(fs[n]), RemovalsFromField(fs, n + 1));
    }
  }

  lemma {:induction false} InConcat(p: seq<Step>, a: seq<seq<Step>>, b: seq<seq<Step>>)
    ensures p in a + b <==> p in a || p in b
  {
  }

  lemma {:induction false} NoEmptyRemoval(v: Json)
    ensures [] !in Removals(v)
  {
    match v
    case Arr(items) => NoEmptyItem(items, 0);
    case Obj(fs) => NoEmptyField(fs, 0);
    case _ =>
  }

  lemma {:induction false} NoEmptyItem(items: seq<Json>, n: nat)
    requires n <= |items|
    ensures [] !in RemovalsFromItem(items, n)
    decreases |items| - n
  {
    if n < |items| { NoEmptyItem(items, n + 1); }
  }

  lemma {:induction false} NoEmptyField(fs: seq<Field>, n: nat)
    requires n <= |fs|
    ensures [] !in RemovalsFromField(fs, n)
    decreases |fs| - n
  {
    if n < |fs| { NoEmptyField(fs, n + 1); }
  }

  /** A removal, one step into the value. */
  lemma {:induction false} RemovalStep(v: Json, s: Step, rest: seq<Step>)
    requires DistinctKeys(v)
    ensures [s] + rest in Removals(v) <==>
      Child(v, s).Some? && if SecretSpot(v, [s]) then rest == [] else rest in Removals(Child(v, s).value)
  {
    SpotOfChild(v, s);
    match v
    case Arr(items) => ItemRemovalsHave(items, 0, s, rest);
    case Obj(fs) => ObjectRemovalStep(fs, s, rest);
    case _ =>
  }

  lemma {:induction false} ObjectRemovalStep(fs: seq<Field>, s: Step, rest: seq<Step>)
    requires KeysDiffer(fs)
    ensures [s] + rest in RemovalsFromField(fs, 0) <==>
      s.Key? && Lookup(fs, s.k).Some? &&
      if Removed(Field(s.k, Lookup(fs, s.k).value)) then rest == [] else rest in Removals(Lookup(fs, s.k).value)
  {
    FieldRemovalsHave(fs, 0, [s] + rest);
    if [s] + rest in RemovalsFromField(fs, 0) {
      var j :| 0 <= j < |fs| && [s] + rest in RemovalsOfField(fs[j]);
      FieldRemovalsHaveOne(fs[j], s, rest);
      LookupAt(fs, j);
      assert fs[j] == Field(s.k, fs[j].val);
    } else if s.Key? && Lookup(fs, s.k).Some? {
      var j := LookupFinds(fs, s.k);
      FieldRemovalsHaveOne(fs[j], s, rest);
      assert fs[j] == Field(s.k, fs[j].val);
    }
  }

  /** Exactly the topmost secret spots are removed, at any depth. */
  lemma {:induction false} RemovalsAreTopSpots(v: Json, p: seq<Step>)
    requires DistinctKeys(v)
    ensures p in Removals(v) <==> TopSpot(v, p)
    decreases |p|
  {
    if p == [] { NoEmptyRemoval(v); }
    else {
      var s, rest := p[0], p[1..];
      assert p == [s] + rest;
      RemovalStep(v, s, rest);
      if rest == [] {
        assert p == [s];
        SpotOfChild(v, s);
        if Child(v, s).Some? { NoEmptyRemoval(Child(v, s).value); }
      } else {
        TopStep(v, s, rest);
        if Child(v, s).Some? {
          ChildIsDistinct(v, s);
          RemovalsAreTopSpots(Child(v, s).value, rest);
        }
      }
    }
  }

  function KeyIndex(fs: seq<Field>, k: string): nat
  {
    if fs == [] || fs[0].key == k then 0 else 1 + KeyIndex(fs[1..], k)
  }

  /** Where a child stands among its siblings. */
  function Rank(v: Json, s: Step): nat
  {
    match s
    case Index(i) => i
    case Key(k) => if v.Obj? then KeyIndex(v.fields, k) else 0
  }

  /** One place is met before another when the value is read from top to bottom. */
  predicate Before(v: Json, p: seq<Step>, q: seq<Step>)
    decreases |p|
  {
    p != [] && q != []
    && if p[0] == q[0] then Child(v, p[0]).Some? && Before(Child(v, p[0]).value, p[1..], q[1..])
       else Rank(v, p[0]) < Rank(v, q[0])
  }

  ghost predicate InOrder(v: Json, ps: seq<seq<Step>>) { forall i, j | 0 <= i < j < |ps| :: Before(v, ps[i], ps[j]) }

  lemma {:induction false} NotBeforeItself(v: Json, p: seq<Step>)
    ensures !Before(v, p, p)
    decreases |p|
  {
    if p != [] && Child(v, p[0]).Some? { NotBeforeItself(Child(v, p[0]).value, p[1..]); }
  }

  lemma {:induction false} OrderConcat(v: Json, a: seq<seq<Step>>, b: seq<seq<Step>>)
    requires InOrder(v, a) && InOrder(v, b) && forall p, q | p in a && q in b :: Before(v, p, q)
    ensures InOrder(v, a + b)
  {
  }

  lemma {:induction false} OrderUnder(v: Json, s: Step, ps: seq<seq<Step>>)
    requires Child(v, s).Some? && InOrder(Child(v, s).value, ps)
    ensures InOrder(v, Under(s, ps))
  {
    forall i, j | 0 <= i < j < |ps| ensures Before(v, [s] + ps[i], [s] + ps[j]) {
      assert ([s] + ps[i])[1..] == ps[i] && ([s] + ps[j])[1..] == ps[j];
    }
  }

  lemma {:induction false} KeyIndexAt(fs: seq<Field>, j: nat)
    requires KeysDiffer(fs) && j < |fs|
    ensures KeyIndex(fs, fs[j].key) == j
  {
    if j > 0 { KeyIndexAt(fs[1..], j - 1); }
  }

  lemma {:induction false} ItemsComeLater(items: seq<Json>, n: nat, p: seq<Step>, q: seq<Step>)
    requires n < |items| && p in Under(Index(n), Removals(items[n])) && q in RemovalsFromItem(items, n + 1)
    ensures Before(Arr(items), p, q)
  {
    NoEmptyItem(items, n + 1);
    assert q == [q[0]] + q[1..];
    ItemRemovalsHave(items, n + 1, q[0], q[1..]);
    assert p[0] == Index(n);
  }

  lemma {:induction false} FirstStepIsKey(f: Field, p: seq<Step>)
    requires p in RemovalsOfField(f)
    ensures p != [] && p[0] == Key(f.key)
  {
  }

  lemma {:induction false} KeyBefore(fs: seq<Field>, n: nat, j: nat, p: seq<Step>, q: seq<Step>)
    requires KeysDiffer(fs) && n < j < |fs| && p != [] && q != [] && p[0] == Key(fs[n].key) && q[0] == Key(fs[j].key)
    ensures Before(Obj(fs), p, q)
  {
    KeyIndexAt(fs, j);
    KeyIndexAt(fs, n);
  }

  lemma {:induction false} FieldOfRemoval(fs: seq<Field>, n: nat, q: seq<Step>) returns (j: nat)
    requires n <= |fs| && q in RemovalsFromField(fs, n)
    ensures n <= j < |fs| && q in RemovalsOfField(fs[j])
    decreases |fs| - n
  {
    j := n;
    if q !in RemovalsOfField(fs[n]) { j := FieldOfRemoval(fs, n + 1, q); }
  }

  lemma {:induction false} FieldsComeLater(fs: seq<Field>, n: nat, p: seq<Step>, q: seq<Step>)
    requires KeysDiffer(fs) && n < |fs| && p in RemovalsOfField(fs[n]) && q in RemovalsFromField(fs, n + 1)
    ensures Before(Obj(fs), p, q)
  {
    var j := FieldOfRemoval(fs, n + 1, q);
    FirstStepIsKey(fs[n], p);
    FirstStepIsKey(fs[j], q);
    KeyBefore(fs, n, j, p, q);
  }

  lemma {:induction false} ItemRemovalsInOrder(items: seq<Json>, n: nat)
    requires DistinctKeys(Arr(items)) && n <= |items|
    ensures InOrder(Arr(items), RemovalsFromItem(items, n))
    decreases items, |items| - n
  {
    if n < |items| {
      var v := Arr(items);
      assert Child(v, Index(n)) == Some(items[n]);
      RemovalsInOrder(items[n]);
      OrderUnder(v, Index(n), Removals(items[n]));
      ItemRemovalsInOrder(items, n + 1);
      var a, b := Under(Index(n), Removals(items[n])), RemovalsFromItem(items, n + 1);
      forall p, q | p in a && q in b ensures Before(v, p, q) { ItemsComeLater(items, n, p, q); }
      OrderConcat(v, a, b);
    }
  }

  lemma {:induction false} FieldRemovalsInOrder(fs: seq<Field>, n: nat)
    requires DistinctKeys(Obj(fs)) && n <= |fs|
    ensures InOrder(Obj(fs), RemovalsFromField(fs, n))
    decreases fs, |fs| - n
  {
    if n < |fs| {
      var v, f := Obj(fs), fs[n];
      var a, b := RemovalsOfField(f), RemovalsFromField(fs, n + 1);
      if !Removed(f) {
        LookupAt(fs, n);
        assert Child(v, Key(f.key)) == Some(f.val);
        RemovalsInOrder(f.val);
        OrderUnder(v, Key(f.key), Removals(f.val));
      }
      FieldRemovalsInOrder(fs, n + 1);
      forall p, q | p in a && q in b ensures Before(v, p, q) { FieldsComeLater(fs, n, p, q); }
      OrderConcat(v, a, b);
    }
  }

  /** Removals are reported from top to bottom. */
  lemma {:induction false} RemovalsInOrder(v: Json)
    requires DistinctKeys(v)
    ensures InOrder(v, Removals(v))
    decreases v
  {
    match v
    case Arr(items) => ItemRemovalsInOrder(items, 0);
    case Obj(fs) => FieldRemovalsInOrder(fs, 0);
    case _ =>
  }

  /** Hence no removed place is reported twice. */
  lemma {:induction false} ReportedOnce(v: Json, i: nat, j: nat)
    requires DistinctKeys(v) && i < |Removals(v)| && j < |Removals(v)| && Removals(v)[i] == Removals(v)[j]
    ensures i == j
  {
    RemovalsInOrder(v);
    NotBeforeItself(v, Removals(v)[i]);
  }

  // ---- a second pass ----

  lemma {:induction false} SecondPassReportsNothing(v: Json)
    requires DistinctKeys(v)
    ensures Removals(Clean(v)) == []
  {
    CleanIsDistinct(v);
    if Removals(Clean(v)) != [] {
      var p := Removals(Clean(v))[0];
      RemovalsAreTopSpots(Clean(v), p);
      NoSecretSurvives(v, p);
      assert false;
    }
  }

  /** Every string that is not dropped is one that masking leaves stable. */
  ghost predicate StringsSettle(v: Json)
  {
    forall p, s | At(v, p) == Some(Str(s)) && !Hidden(v, p) :: !NeedsSecondPass(s)
  }

  lemma {:induction false} SettlesBelow(v: Json, s: Step)
    requires StringsSettle(v) && Child(v, s).Some? && !SecretSpot(v, [s])
    ensures StringsSettle(Child(v, s).value)
  {
    var c := Child(v, s).value;
    forall p, t | At(c, p) == Some(Str(t)) && !Hidden(c, p) ensures !NeedsSecondPass(t) {
      AtStep(v, s, p);
      HiddenStep(v, s, p);
    }
  }

  lemma {:induction false} FieldsSettle(fs: seq<Field>)
    requires forall j | 0 <= j < |fs| && !Removed(fs[j]) :: Clean(Clean(fs[j].val)) == Clean(fs[j].val)
    ensures CleanFields(CleanFields(fs)) == CleanFields(fs)
  {
    if fs != [] {
      FieldsSettle(fs[1..]);
      if Removed(fs[0]) { assert CleanFields(fs) == CleanFields(fs[1..]); }
      else { SettledHead(fs[0], CleanFields(fs[1..])); }
    }
  }

  lemma {:induction false} SettledHead(f: Field, tail: seq<Field>)
    requires !Removed(f) && Clean(Clean(f.val)) == Clean(f.val) && CleanFields(tail) == tail
    ensures CleanFields(CleanField(f) + tail) == CleanField(f) + tail
  {
    var g := Field(f.key, Clean(f.val));
    KeptIsKept(f);
    assert ([g] + tail)[1..] == tail;
  }

  lemma {:induction false} KeptIsKept(f: Field)
    requires !Removed(f)
    ensures !Removed(Field(f.key, Clean(f.val)))
  {
    if Blank(f.val) { BlankIsKept(f.val); }
  }

  lemma {:induction false} SettledIsStable(v: Json)
    requires DistinctKeys(v) && StringsSettle(v)
    ensures Clean(Clean(v)) == Clean(v)
    decreases v
  {
    match v
    case Arr(items) =>
      forall i | 0 <= i < |items| ensures Clean(Clean(items[i])) == Clean(items[i]) {
        SpotOfChild(v, Index(i));
        SettlesBelow(v, Index(i));
        SettledIsStable(items[i]);
      }
      assert CleanItems(CleanItems(items)) == CleanItems(items);
    case Obj(fs) =>
      forall j | 0 <= j < |fs| && !Removed(fs[j]) ensures Clean(Clean(fs[j].val)) == Clean(fs[j].val) {
        LookupAt(fs, j);
        SpotOfChild(v, Key(fs[j].key));
        SettlesBelow(v, Key(fs[j].key));
        SettledIsStable(fs[j].val);
      }
      FieldsSettle(fs);
    case Str(s) =>
      assert At(v, []) == Some(Str(s)) && !Hidden(v, []);
      MaskStableIff(s);
    case _ =>
  }

  /** A second pass changes nothing exactly when no string it keeps hides credentials behind a parameter value. */
  lemma {:induction false} StableIff(v: Json)
    requires DistinctKeys(v)
    ensures Clean(Clean(v)) == Clean(v) <==> StringsSettle(v)
  {
    if StringsSettle(v) { SettledIsStable(v); }
    if Clean(Clean(v)) == Clean(v) {
      forall p, s | At(v, p) == Some(Str(s)) && !Hidden(v, p) ensures !NeedsSecondPass(s) {
        StableString(v, p, s);
      }
    }
  }

  lemma {:induction false} StableString(v: Json, p: seq<Step>, s: string)
    requires DistinctKeys(v) && Clean(Clean(v)) == Clean(v) && At(v, p) == Some(Str(s)) && !Hidden(v, p)
    ensures !NeedsSecondPass(s)
  {
    KeptInPlace(v, p);
    CleanIsDistinct(v);
    KeptInPlace(Clean(v), p);
    forall n | 0 < n <= |p| ensures !SecretSpot(Clean(v), p[..n]) { NoSecretSurvives(v, p[..n]); }
    assert At(Clean(v), p) == Some(Str(Mask(s)));
    MaskStableIff(s);
  }

  /** With plain host runs throughout, redacting twice is redacting once. */
  lemma {:induction false} PlainConfigIsStable(v: Json)
    requires DistinctKeys(v)
    requires forall p, s | At(v, p) == Some(Str(s)) && UriLike(s) :: PlainHostRun(s[SchemeLength(s).value..])
    ensures Clean(Clean(v)) == Clean(v)
  {
    forall p, s | At(v, p) == Some(Str(s)) && !Hidden(v, p) ensures !NeedsSecondPass(s) {
      PlainHostIsStable(s);
      MaskStableIff(s);
    }
    SettledIsStable(v);
  }

  // ---- redactConfig ----

  datatype Redacted = Redacted(config: Json, hasPassword: bool, redactedKeys: seq<string>)

  /** Anything but an object or an array is treated as an empty object. */
  function Root(cfg: Json): Json { if cfg.Obj? || cfg.Arr? then cfg else Obj([]) }

  lemma {:induction false} TopOf(v: Json, p: seq<Step>, n: nat) returns (q: seq<Step>)
    requires SecretSpot(v, p) && n <= |p| && forall m | 0 < m < n :: !SecretSpot(v, p[..m])
    ensures TopSpot(v, q)
    decreases |p| - n
  {
    if n == |p| {
      q := p;
    } else if 0 < n && SecretSpot(v, p[..n]) {
      q := p[..n];
      assert forall m | 0 < m < n :: q[..m] == p[..m];
    } else {
      q := TopOf(v, p, n + 1);
    }
  }

  lemma {:induction false} HasPasswordIff(v: Json)
    requires DistinctKeys(v)
    ensures |Removals(v)| > 0 <==> exists p :: SecretSpot(v, p)
  {
    if |Removals(v)| > 0 { RemovalsAreTopSpots(v, Removals(v)[0]); }
    if p :| SecretSpot(v, p) {
      var q := TopOf(v, p, 0);
      RemovalsAreTopSpots(v, q);
    }
  }

  /** An object of one entry: dropped and reported by its key when named secret with a value, and kept otherwise. */
  lemma {:induction false} OneEntry(k: string, v: Json)
    ensures SecretByName(k) && v != Null && v != Undef && v != Str("") ==>
              Clean(Obj([Field(k, v)])) == Obj([]) && Report("", Removals(Obj([Field(k, v)]))) == [k]
    ensures !(SecretByName(k) && v != Null && v != Undef && v != Str("")) ==>
              && Clean(Obj([Field(k, v)])) == Obj([Field(k, Clean(v))])
              && Report("", Removals(Obj([Field(k, v)]))) == Report(k, Removals(v))
  {
    SecretKeyIff(k);
    var f := Field(k, v);
    assert [f][1..] == [];
    assert CleanFields([f]) == CleanField(f) + [] == CleanField(f);
    ReportFieldStep("", [f], 0);
    assert Report("", RemovalsFromField([f], 1)) == [];
    assert FieldReport("", f) + [] == FieldReport("", f);
  }

  lemma {:induction false} OneEntryConfig(f: Field)
    ensures HoldsSecret(Obj([f]), [Key(f.key)]) ==>
              Clean(Obj([f])) == Obj([]) && Report("", Removals(Obj([f]))) == [f.key]
    ensures !HoldsSecret(Obj([f]), [Key(f.key)]) ==> Clean(Obj([f])) == Obj([Field(f.key, Clean(f.val))])
  {
    assert f == Field(f.key, f.val);
    OneEntry(f.key, f.val);
    AtStep(Obj([f]), Key(f.key), []);
    assert [Key(f.key)] + [] == [Key(f.key)];
  }

  /** At this place sits an entry with a secret name and a value. */
  ghost predicate HoldsSecret(v: Json, p: seq<Step>)
  {
    && p != [] && p[|p| - 1].Key? && SecretByName(p[|p| - 1].k)
    && At(v, p).Some? && At(v, p) != Some(Null) && At(v, p) != Some(Undef) && At(v, p) != Some(Str(""))
  }

  lemma {:induction false} SpotsHoldSecrets(v: Json, p: seq<Step>)
    ensures SecretSpot(v, p) <==> HoldsSecret(v, p)
  {
    if p != [] && p[|p| - 1].Key? { SecretKeyIff(p[|p| - 1].k); }
  }

  method RedactConfig(cfg: Json) returns (r: Redacted)
    requires DistinctKeys(cfg)
    ensures r.config == Clean(Root(cfg))
    ensures r.redactedKeys == Report("", Removals(Root(cfg)))
    ensures r.hasPassword <==> exists p :: HoldsSecret(Root(cfg), p)
    ensures forall p :: !HoldsSecret(r.config, p)
    ensures cfg.Obj? && |cfg.fields| == 1 && HoldsSecret(cfg, [Key(cfg.fields[0].key)]) ==>
              r == Redacted(Obj([]), true, [cfg.fields[0].key])
    ensures cfg.Obj? && |cfg.fields| == 1 && !HoldsSecret(cfg, [Key(cfg.fields[0].key)]) ==>
              r.config == Obj([Field(cfg.fields[0].key, Clean(cfg.fields[0].val))])
  {
    var redactor := new Redactor();
    var config := redactor.Walk(if cfg.Obj? || cfg.Arr? then cfg else Obj([]), "");
    HasPasswordIff(Root(cfg));
    forall p ensures SecretSpot(Root(cfg), p) <==> HoldsSecret(Root(cfg), p) { SpotsHoldSecrets(Root(cfg), p); }
    forall p ensures !HoldsSecret(Clean(Root(cfg)), p) {
      NoSecretSurvives(Root(cfg), p);
      SpotsHoldSecrets(Clean(Root(cfg)), p);
    }
    if cfg.Obj? && |cfg.fields| == 1 {
      assert cfg == Obj([cfg.fields[0]]);
      OneEntryConfig(cfg.fields[0]);
    }
    r := Redacted(config, |redactor.redactedKeys| > 0, redactor.redactedKeys);
  }
}
