/**
  Identifier helpers and the tenant namespace algebra
  (backend/src/utils/identifiers.ts, backend/src/utils/tenantScope.ts).

  A tenant `<id>` owns the schemas `tenant_<id>` and `tenant_<id>_<logical>`.
 */
module Identifiers {
  import opened Wrappers

  predicate IsLetter(c: char) { 'a' <= c <= 'z' || 'A' <= c <= 'Z' }

  predicate IsWord(c: char) { IsLetter(c) || '0' <= c <= '9' || c == '_' }

  predicate AllWord(s: string) { forall i | 0 <= i < |s| :: IsWord(s[i]) }

  /** `^[A-Za-z][A-Za-z0-9_]{1,40}$` */
  predicate IsTenantId(s: string) { 2 <= |s| <= 41 && IsLetter(s[0]) && AllWord(s) }

  /** `^[A-Za-z0-9_]{1,56}$`, the runtime check before an id becomes a schema name. */
  predicate IsSafeTenantId(s: string) { 1 <= |s| <= 56 && AllWord(s) }

  function BaseSchema(id: string): string { "tenant_" + id }

  predicate BelongsToTenant(name: string, id: string)
  {
    name == BaseSchema(id) || BaseSchema(id) + "_" <= name
  }

  predicate IsLikeSpecial(c: char) { c == '\\' || c == '%' || c == '_' }

  function EscapeLike(s: string): string
  {
    if s == "" then ""
    else (if IsLikeSpecial(s[0]) then ['\\', s[0]] else [s[0]]) + EscapeLike(s[1..])
  }

  /** SQL `s LIKE p ESCAPE '\'`; a pattern that ends in the escape character matches nothing. */
  predicate Like(p: string, s: string)
    decreases |p| + |s|
  {
    if p == "" then s == ""
    else if p[0] == '%' then Like(p[1..], s) || (s != "" && Like(p, s[1..]))
    else if p[0] == '\\' then |p| >= 2 && s != "" && s[0] == p[1] && Like(p[2..], s[1..])
    else s != "" && (p[0] == '_' || p[0] == s[0]) && Like(p[1..], s[1..])
  }

  lemma {:induction false} PercentMatchesAll(s: string)
    ensures Like("%", s)
  {
    if s != "" { PercentMatchesAll(s[1..]); }
  }

  /** An escaped text followed by `%` is a literal prefix test, whatever wildcards the text holds. */
  lemma {:induction false} EscapedLikeIsPrefix(b: string, s: string)
    ensures Like(EscapeLike(b) + "%", s) <==> b <= s
  {
    var p := EscapeLike(b) + "%";
    if b == "" {
      assert p == "%";
      PercentMatchesAll(s);
    } else {
      var tail := EscapeLike(b[1..]) + "%";
      if IsLikeSpecial(b[0]) {
        assert p == ['\\', b[0]] + tail;
        assert p[2..] == tail;
      } else {
        assert p == [b[0]] + tail;
        assert p[1..] == tail;
      }
      if s != "" { EscapedLikeIsPrefix(b[1..], s[1..]); }
    }
  }

  /** The `WHERE schema_name = $1 OR schema_name LIKE $2` of the schema queries. */
  predicate SchemaQuerySelects(name: string, id: string)
  {
    name == BaseSchema(id) || Like(EscapeLike(BaseSchema(id) + "_") + "%", name)
  }

  /** The SQL predicate and the JavaScript re-check select the same schema names. */
  lemma {:induction false} SchemaQueryIsBelongs(name: string, id: string)
    ensures SchemaQuerySelects(name, id) <==> BelongsToTenant(name, id)
  {
    EscapedLikeIsPrefix(BaseSchema(id) + "_", name);
  }

  /** `tenant_<id>` itself, or `tenant_<id>_` followed by a logical name. */
  lemma {:induction false} OwnedNames(name: string, id: string)
    ensures BelongsToTenant(name, id) <==>
            name == "tenant_" + id || exists logical: string :: name == "tenant_" + id + "_" + logical
  {
    var p := BaseSchema(id) + "_";
    if p <= name { assert name == p + name[|p|..]; }
  }

  /** Text without wildcards is not changed. */
  lemma {:induction false} EscapeLeavesPlainText(s: string)
    requires forall i | 0 <= i < |s| :: s[i] != '\\' && s[i] != '%' && s[i] != '_'
    ensures EscapeLike(s) == s
  {
    if s != "" { EscapeLeavesPlainText(s[1..]); }
  }

  lemma {:induction false} UnderscoreMatchesOne(p: string, s: string)
    ensures Like(['_'] + p, s) <==> s != "" && Like(p, s[1..])
  {
    assert (['_'] + p)[1..] == p;
  }

  lemma {:induction false} PercentMatchesAny(p: string, s: string)
    ensures Like(['%'] + p, s) <==> exists k | 0 <= k <= |s| :: Like(p, s[k..])
    decreases |s|
  {
    var q := ['%'] + p;
    assert q[1..] == p && s[0..] == s;
    if s != "" {
      PercentMatchesAny(p, s[1..]);
      assert forall k | 0 <= k <= |s| - 1 :: s[1..][k..] == s[k + 1..];
      if Like(q, s[1..]) {
        var k :| 0 <= k <= |s| - 1 && Like(p, s[1..][k..]);
        assert Like(p, s[k + 1..]);
      }
      if k :| 0 <= k <= |s| && Like(p, s[k..]) {
        if k > 0 { assert s[1..][k - 1..] == s[k..]; }
      }
    }
  }

  /** Why the escape: a `_` left as it is matches any character, so `a_b_%` selects `axb_` too. */
  lemma {:induction false} UnescapedMatchesMore(a: string, c: char, b: string)
    requires forall i | 0 <= i < |a| :: !IsLikeSpecial(a[i])
    requires forall i | 0 <= i < |b| :: !IsLikeSpecial(b[i])
    ensures Like(a + ['_'] + b, a + [c] + b)
  {
    PlainMatchesItself(b, "", "");
    assert b + "" == b;
    UnderscoreMatchesOne(b, [c] + b);
    assert ([c] + b)[1..] == b;
    PlainMatchesItself(a, ['_'] + b, [c] + b);
    assert a + ['_'] + b == a + (['_'] + b) && a + [c] + b == a + ([c] + b);
  }

  lemma {:induction false} PlainMatchesItself(a: string, p: string, s: string)
    requires forall i | 0 <= i < |a| :: !IsLikeSpecial(a[i])
    requires Like(p, s)
    ensures Like(a + p, a + s)
  {
    if a == "" { assert a + p == p && a + s == s; }
    else {
      PlainMatchesItself(a[1..], p, s);
      assert (a + p)[1..] == a[1..] + p && (a + s)[1..] == a[1..] + s;
    }
  }

  // ---- overlap of two tenants' namespaces ----

  ghost predicate ShareSchema(a: string, b: string)
  {
    exists name :: BelongsToTenant(name, a) && BelongsToTenant(name, b)
  }

  predicate Overlap(a: string, b: string) { a + "_" <= b || b + "_" <= a }

  lemma {:induction false} PrefixesAreComparable(p: string, q: string, s: string)
    requires p <= s && q <= s && |p| <= |q|
    ensures p <= q
  {
  }

  /** A schema owned by both makes the shorter id, with its separator, a prefix of the longer one. */
  lemma {:induction false} SharedSchemaMeansOverlap(name: string, a: string, b: string)
    requires BelongsToTenant(name, a) && BelongsToTenant(name, b) && a != b && |a| <= |b|
    ensures a + "_" <= b
  {
    var A, B := BaseSchema(a), BaseSchema(b);
    assert A <= name && B <= name;
    PrefixesAreComparable(A, B, name);
    assert forall i | 0 <= i < |a| :: a[i] == A[7 + i] == B[7 + i] == b[i];
    assert a <= b;
    assert |a| == |b| ==> a == b;
    assert A + "_" <= name;
    assert b[|a|] == B[7 + |a|] == name[7 + |a|] == (A + "_")[7 + |a|] == '_';
  }

  /** Two different tenant ids own a common schema name exactly when one, followed by `_`, starts the other. */
  lemma {:induction false} ShareIffOverlap(a: string, b: string)
    requires a != b
    ensures ShareSchema(a, b) <==> Overlap(a, b)
  {
    if ShareSchema(a, b) {
      var name :| BelongsToTenant(name, a) && BelongsToTenant(name, b);
      if |a| <= |b| { SharedSchemaMeansOverlap(name, a, b); } else { SharedSchemaMeansOverlap(name, b, a); }
    }
    if a + "_" <= b {
      assert BaseSchema(a) + "_" == "tenant_" + (a + "_") <= BaseSchema(b);
      assert BelongsToTenant(BaseSchema(b), a) && BelongsToTenant(BaseSchema(b), b);
    }
    if b + "_" <= a {
      assert BaseSchema(b) + "_" == "tenant_" + (b + "_") <= BaseSchema(a);
      assert BelongsToTenant(BaseSchema(a), b) && BelongsToTenant(BaseSchema(a), a);
    }
  }

  // ---- the creation rule keeps namespaces apart ----

  function LowerChar(c: char): char { if 'A' <= c <= 'Z' then (c as int + 32) as char else c }

  function Lower(s: string): (r: string)
    ensures |r| == |s|
  {
    seq(|s|, i requires 0 <= i < |s| => LowerChar(s[i]))
  }

  /** ASCII letters fold to their lower-case partner, and nothing else changes. */
  lemma {:induction false} LowerFolds(c: char, i: nat)
    requires i < 26
    ensures c == "ABCDEFGHIJKLMNOPQRSTUVWXYZ"[i] ==> LowerChar(c) == "abcdefghijklmnopqrstuvwxyz"[i]
    ensures (c < 'A' || 'Z' < c) ==> LowerChar(c) == c
  {
    assert "ABCDEFGHIJKLMNOPQRSTUVWXYZ"[i] as int == 65 + i;
    assert "abcdefghijklmnopqrstuvwxyz"[i] as int == 97 + i;
  }

  /** What can become a schema name at run time. */
  lemma {:induction false} SafeIdIff(s: string)
    ensures IsSafeTenantId(s) <==> s != "" && |s| < 57 && forall c | c in s ::
              'a' <= c <= 'z' || 'A' <= c <= 'Z' || '0' <= c <= '9' || c == '_'
  {
    if forall c | c in s :: IsWord(c) { assert forall i | 0 <= i < |s| :: s[i] in s; }
  }

  /** The WHERE clause of findTenantIdOverlap: existing id `e` against a new id. */
  predicate OverlapIgnoringCase(e: string, id: string)
  {
    Lower(e) != Lower(id) && (Lower(e) + "_" <= Lower(id) || Lower(id) + "_" <= Lower(e))
  }

  datatype CreateError = InvalidIdentifier | TenantIdOverlap | DuplicateKey

  /** assertCreatableTenantId followed by the INSERT, which the advisory lock makes one atomic step. */
  function CreateTenant(registry: set<string>, id: string): (r: Result<set<string>, CreateError>)
  {
    if !IsTenantId(id) then Err(InvalidIdentifier)
    else if exists e | e in registry :: OverlapIgnoringCase(e, id) then Err(TenantIdOverlap)
    else if id in registry then Err(DuplicateKey)
    else Ok(registry + {id})
  }

  function CreateAll(registry: set<string>, ids: seq<string>): set<string>
    decreases |ids|
  {
    if ids == [] then registry
    else
      var next := CreateTenant(registry, ids[0]);
      CreateAll(if next.Ok? then next.value else registry, ids[1..])
  }

  /** When an id is created, and what is refused instead. */
  lemma {:induction false} CreateTenantIff(registry: set<string>, id: string)
    ensures CreateTenant(registry, id) == Ok(registry + {id}) <==>
            && 2 <= |id| <= 41 && ('a' <= id[0] <= 'z' || 'A' <= id[0] <= 'Z')
            && (forall i | 0 <= i < |id| ::
                  'a' <= id[i] <= 'z' || 'A' <= id[i] <= 'Z' || '0' <= id[i] <= '9' || id[i] == '_')
            && id !in registry
            && forall e | e in registry && Lower(e) != Lower(id) :: !Overlap(Lower(e), Lower(id))
    ensures CreateTenant(registry, id).Ok? ==> CreateTenant(registry, id).value == registry + {id}
    ensures IsTenantId(id) ==> IsSafeTenantId(id)
  {
    if CreateTenant(registry, id).Ok? {
      forall e | e in registry && Lower(e) != Lower(id) ensures !Overlap(Lower(e), Lower(id)) {
        assert !OverlapIgnoringCase(e, id);
      }
    }
  }

  /** No schema has two owners, nor would it have in lower case, unless the ids differ in case only. */
  ghost predicate NamespacesDisjoint(registry: set<string>)
  {
    forall a, b | a in registry && b in registry && a != b ::
      !ShareSchema(a, b) && (Lower(a) != Lower(b) ==> !ShareSchema(Lower(a), Lower(b)))
  }

  lemma {:induction false} OverlapSurvivesLower(a: string, b: string)
    requires a + "_" <= b
    ensures Lower(a) + "_" <= Lower(b) && Lower(a) != Lower(b)
  {
    var p := a + "_";
    assert forall i | 0 <= i < |a| :: b[i] == p[i] == a[i];
    assert b[|a|] == p[|a|] == '_';
  }

  lemma {:induction false} AcceptedIsDisjoint(a: string, id: string)
    requires a != id && !OverlapIgnoringCase(a, id)
    ensures !ShareSchema(a, id) && !ShareSchema(id, a)
    ensures Lower(a) != Lower(id) ==> !ShareSchema(Lower(a), Lower(id)) && !ShareSchema(Lower(id), Lower(a))
  {
    if a + "_" <= id { OverlapSurvivesLower(a, id); }
    if id + "_" <= a { OverlapSurvivesLower(id, a); }
    ShareIffOverlap(a, id);
    ShareIffOverlap(id, a);
    if Lower(a) != Lower(id) {
      ShareIffOverlap(Lower(a), Lower(id));
      ShareIffOverlap(Lower(id), Lower(a));
    }
  }

  /** Any sequence of creation attempts leaves every schema name with at most one owner, in lower case too. */
  lemma {:induction false} CreationKeepsNamespacesDisjoint(registry: set<string>, ids: seq<string>)
    requires NamespacesDisjoint(registry)
    ensures NamespacesDisjoint(CreateAll(registry, ids))
    decreases |ids|
  {
    if ids != [] {
      var id := ids[0];
      var next := CreateTenant(registry, id);
      if next.Ok? {
        forall a | a in registry && a != id
          ensures !ShareSchema(a, id) && !ShareSchema(id, a)
          ensures Lower(a) != Lower(id) ==> !ShareSchema(Lower(a), Lower(id)) && !ShareSchema(Lower(id), Lower(a))
        {
          AcceptedIsDisjoint(a, id);
        }
      }
      CreationKeepsNamespacesDisjoint(if next.Ok? then next.value else registry, ids[1..]);
    }
  }

  // ---- quoting ----

  function DoubleQuotes(s: string): string
  {
    if s == "" then "" else (if s[0] == '"' then "\"\"" else [s[0]]) + DoubleQuotes(s[1..])
  }

  function QuoteName(s: string): string { "\"" + DoubleQuotes(s) + "\"" }

  /** quoteAnyIdent refuses the empty name, NUL and names longer than 128. */
  predicate CanQuote(s: string) { s != "" && '\0' !in s && |s| <= 128 }

  function QuoteAnyIdent(s: string): Result<string, CreateError>
  {
    if CanQuote(s) then Ok(QuoteName(s)) else Err(InvalidIdentifier)
  }
}
