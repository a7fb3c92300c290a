/**
  The `search_path` text of a tenant (tenantSearchPath, backend/src/config/database.ts) and a reader for it that
  follows PostgreSQL's identifier-list rules: items separated by commas, quoted items with doubled quotes.
 */
module SearchPath {
  import opened Wrappers
  import opened Identifiers

  /** `tenantId.replace(/[^a-zA-Z0-9_]/g, '')` */
  function CleanTenant(id: string): (r: string)
    ensures AllWord(r)
  {
    if id == "" then "" else (if IsWord(id[0]) then [id[0]] else "") + CleanTenant(id[1..])
  }

  lemma {:induction false} CleanKeepsWords(id: string)
    requires AllWord(id)
    ensures CleanTenant(id) == id
  {
    if id != "" { CleanKeepsWords(id[1..]); }
  }

  function FilterOwned(rows: seq<string>, id: string): (r: seq<string>)
    ensures forall i | 0 <= i < |r| :: BelongsToTenant(r[i], id)
  {
    if rows == [] then []
    else (if BelongsToTenant(rows[0], id) then [rows[0]] else []) + FilterOwned(rows[1..], id)
  }

  /** The schemas the path names: the owned ones the query returned, or the primary schema when there is none. */
  function PathSchemas(rows: seq<string>, tenantId: string): (r: seq<string>)
    ensures r != []
    ensures forall i | 0 <= i < |r| :: BelongsToTenant(r[i], CleanTenant(tenantId)) && r[i] != ""
  {
    var id := CleanTenant(tenantId);
    var names := FilterOwned(rows, id);
    if names != [] then names else [BaseSchema(id)]
  }

  /** `names.map(quote).join(', ') + ', public'` */
  function Render(names: seq<string>): string
  {
    if names == [] then "public" else QuoteName(names[0]) + ", " + Render(names[1..])
  }

  function TenantSearchPath(rows: seq<string>, tenantId: string): string
  {
    Render(PathSchemas(rows, tenantId))
  }

  // ---- reader ----

  datatype Item = Item(name: string, rest: string)

  /** Reads a quoted identifier whose opening quote is already consumed. */
  function ReadQuoted(t: string, acc: string): (r: Option<Item>)
    ensures r.Some? ==> |r.value.rest| < |t|
    decreases |t|
  {
    if t == "" then None
    else if t[0] != '"' then ReadQuoted(t[1..], acc + [t[0]])
    else if |t| >= 2 && t[1] == '"' then ReadQuoted(t[2..], acc + ['"'])
    else if acc == "" then None
    else Some(Item(acc, t[1..]))
  }

  function ReadBare(t: string, acc: string): (r: Option<Item>)
    ensures r.Some? ==> |r.value.rest| <= |t| && |r.value.name| + |r.value.rest| == |acc| + |t| && r.value.name != ""
    decreases |t|
  {
    if t != "" && IsWord(t[0]) then ReadBare(t[1..], acc + [LowerChar(t[0])])
    else if acc == "" then None
    else Some(Item(acc, t))
  }

  function SkipSpaces(t: string): (r: string)
    ensures |r| <= |t|
  {
    if t != "" && t[0] == ' ' then SkipSpaces(t[1..]) else t
  }

  function ReadItem(t: string): (r: Option<Item>)
    ensures r.Some? ==> |r.value.rest| < |t|
  {
    var u := SkipSpaces(t);
    if u == "" then None
    else if u[0] == '"' then ReadQuoted(u[1..], "")
    else ReadBare(u, "")
  }

  function ReadPath(t: string): Option<seq<string>>
    decreases |t|
  {
    match ReadItem(t)
    case None => None
    case Some(Item(name, rest)) =>
      var more := SkipSpaces(rest);
      if more == "" then Some([name])
      else if more[0] != ',' then None
      else match ReadPath(more[1..])
        case None => None
        case Some(names) => Some([name] + names)
  }

  // ---- round trip ----

  lemma {:induction false} ReadsBackQuoted(n: string, rest: string, acc: string)
    requires rest == "" || rest[0] != '"'
    requires acc + n != ""
    ensures ReadQuoted(DoubleQuotes(n) + "\"" + rest, acc) == Some(Item(acc + n, rest))
    decreases |n|
  {
    var t := DoubleQuotes(n) + "\"" + rest;
    if n == "" {
      assert t == "\"" + rest;
      assert t[1..] == rest;
      assert acc + n == acc;
    } else {
      var tail := DoubleQuotes(n[1..]) + "\"" + rest;
      if n[0] == '"' { assert t == "\"\"" + tail; assert t[2..] == tail; }
      else { assert t == [n[0]] + tail; assert t[1..] == tail; }
      assert (acc + [n[0]]) + n[1..] == acc + n;
      ReadsBackQuoted(n[1..], rest, acc + [n[0]]);
    }
  }

  lemma {:induction false} ReadsBackBare(w: string, acc: string)
    requires forall i | 0 <= i < |w| :: IsWord(w[i]) && LowerChar(w[i]) == w[i]
    requires acc + w != ""
    ensures ReadBare(w, acc) == Some(Item(acc + w, ""))
    decreases |w|
  {
    if w == "" {
      assert acc + w == acc;
    } else {
      assert (acc + [w[0]]) + w[1..] == acc + w;
      ReadsBackBare(w[1..], acc + [w[0]]);
    }
  }

  lemma {:induction false} ReadsBackLast(w: string)
    requires w != "" && forall i | 0 <= i < |w| :: IsWord(w[i]) && LowerChar(w[i]) == w[i]
    ensures ReadPath(w) == Some([w]) && ReadPath(" " + w) == Some([w])
  {
    ReadsBackBare(w, "");
    assert "" + w == w;
    assert ReadItem(w) == Some(Item(w, ""));
    assert (" " + w)[1..] == w;
    assert SkipSpaces(" " + w) == SkipSpaces(w) == w;
    assert ReadItem(" " + w) == Some(Item(w, ""));
  }

  /** An identifier that can be quoted reads back as itself; only the empty, NUL-holding and over-long are refused. */
  lemma {:induction false} QuotedIdentReadsBack(n: string)
    ensures QuoteAnyIdent(n).Err? <==> n == "" || '\0' in n || |n| > 128
    ensures QuoteAnyIdent(n).Ok? ==> ReadPath(QuoteAnyIdent(n).value) == Some([n])
  {
    if n != "" {
      QuoteText(n, "");
      assert QuoteName(n) + "" == QuoteName(n);
      ReadsBackQuoted(n, "", "");
      assert "" + n == n;
    }
  }

  lemma {:induction false} LeadingSpace(t: string)
    requires t != "" && t[0] != ' '
    ensures ReadItem(" " + t) == ReadItem(t)
  {
    assert (" " + t)[1..] == t;
    assert SkipSpaces(" " + t) == SkipSpaces(t) == t;
  }

  lemma {:induction false} QuoteText(n: string, after: string)
    ensures var t := QuoteName(n) + after; t[0] == '"' && t[1..] == DoubleQuotes(n) + "\"" + after
  {
  }

  lemma {:induction false} ReadsBackItem(n: string, after: string)
    requires n != "" && after != "" && after[0] == ','
    ensures ReadItem(QuoteName(n) + after) == Some(Item(n, after))
    ensures ReadItem(" " + (QuoteName(n) + after)) == Some(Item(n, after))
  {
    QuoteText(n, after);
    ReadsBackQuoted(n, after, "");
    assert "" + n == n;
    LeadingSpace(QuoteName(n) + after);
  }

  lemma {:induction false} CommaText(q: string, more: string)
    ensures q + ", " + more == q + ([','] + (" " + more))
  {
  }

  lemma {:induction false} PathStep(t: string, n: string, more: string, names: seq<string>)
    requires ReadItem(t) == Some(Item(n, [','] + more)) && ReadPath(more) == Some(names)
    ensures ReadPath(t) == Some([n] + names)
  {
    assert ([','] + more)[1..] == more;
  }

  lemma {:induction false} ReadsBackCons(n: string, more: string, names: seq<string>)
    requires n != "" && ReadPath(" " + more) == Some(names)
    ensures ReadPath(QuoteName(n) + ", " + more) == Some([n] + names)
    ensures ReadPath(" " + (QuoteName(n) + ", " + more)) == Some([n] + names)
  {
    var q := QuoteName(n);
    CommaText(q, more);
    ReadsBackItem(n, [','] + (" " + more));
    PathStep(q + ", " + more, n, " " + more, names);
    PathStep(" " + (q + ", " + more), n, " " + more, names);
  }

  /** Reading a rendered path returns the names in order, whatever quotes, commas or spaces they hold, then `public`. */
  lemma {:induction false} RenderReadsBack(names: seq<string>)
    requires forall i | 0 <= i < |names| :: names[i] != ""
    ensures ReadPath(Render(names)) == Some(names + ["public"])
    ensures ReadPath(" " + Render(names)) == Some(names + ["public"])
    decreases |names|
  {
    if names == [] {
      ReadsBackLast("public");
      assert names + ["public"] == ["public"];
    } else {
      RenderReadsBack(names[1..]);
      ReadsBackCons(names[0], Render(names[1..]), names[1..] + ["public"]);
      assert [names[0]] + (names[1..] + ["public"]) == names + ["public"];
    }
  }

  lemma {:induction false} RenderIsInjective(a: seq<string>, b: seq<string>)
    requires forall i | 0 <= i < |a| :: a[i] != ""
    requires forall i | 0 <= i < |b| :: b[i] != ""
    requires Render(a) == Render(b)
    ensures a == b
  {
    RenderReadsBack(a);
    RenderReadsBack(b);
    assert a == (a + ["public"])[..|a|] == (b + ["public"])[..|b|] == b;
  }

  /** For any raw tenant id and any query rows the path reads as schemas of that tenant only, then `public`. */
  lemma {:induction false} TenantPathReadsOwnedOnly(rows: seq<string>, tenantId: string)
    ensures ReadPath(TenantSearchPath(rows, tenantId)) == Some(PathSchemas(rows, tenantId) + ["public"])
    ensures forall i | 0 <= i < |PathSchemas(rows, tenantId)| ::
              BelongsToTenant(PathSchemas(rows, tenantId)[i], CleanTenant(tenantId))
  {
    RenderReadsBack(PathSchemas(rows, tenantId));
  }

  /** When every row comes from the schema query, the JavaScript filter drops nothing. */
  lemma {:induction false} FilterKeepsQueryRows(rows: seq<string>, id: string)
    requires forall i | 0 <= i < |rows| :: SchemaQuerySelects(rows[i], id)
    ensures FilterOwned(rows, id) == rows
  {
    if rows != [] {
      SchemaQueryIsBelongs(rows[0], id);
      FilterKeepsQueryRows(rows[1..], id);
    }
  }

  // ---- which rows the path names ----

  /** `kept` is `rows` without the names that are not the tenant's, in the same order. */
  ghost predicate KeepsOwned(kept: seq<string>, rows: seq<string>, id: string)
  {
    exists at: seq<nat> :: KeptAt(at, kept, rows) && ListsOwned(at, rows, id)
  }

  /** Entry `i` of `kept` is row `at[i]`, and `at` ascends. */
  ghost predicate KeptAt(at: seq<nat>, kept: seq<string>, rows: seq<string>)
  {
    && |at| == |kept| && (forall i, j | 0 <= i < j < |at| :: at[i] < at[j])
    && (forall i | 0 <= i < |at| :: at[i] < |rows| && kept[i] == rows[at[i]])
  }

  /** `at` lists exactly the rows of the tenant. */
  ghost predicate ListsOwned(at: seq<nat>, rows: seq<string>, id: string)
  {
    forall j: nat | j < |rows| :: BelongsToTenant(rows[j], id) <==> j in at
  }

  function Shift(tail: seq<nat>): (r: seq<nat>)
    ensures |r| == |tail| && forall i | 0 <= i < |tail| :: r[i] == tail[i] + 1
  {
    seq(|tail|, i requires 0 <= i < |tail| => tail[i] + 1)
  }

  lemma {:induction false} ShiftHas(tail: seq<nat>, j: nat)
    ensures j in Shift(tail) <==> j > 0 && j - 1 in tail
  {
    if j > 0 && j - 1 in tail {
      var i :| 0 <= i < |tail| && tail[i] == j - 1;
      assert Shift(tail)[i] == j;
    }
  }

  lemma {:induction false} ShiftKeeps(tail: seq<nat>, kept: seq<string>, rows: seq<string>)
    requires rows != [] && KeptAt(tail, kept, rows[1..])
    ensures KeptAt(Shift(tail), kept, rows) && KeptAt([0] + Shift(tail), [rows[0]] + kept, rows)
  {
    var at := Shift(tail);
    forall i | 0 <= i < |at| ensures at[i] < |rows| && kept[i] == rows[at[i]] {
      assert rows[1..][tail[i]] == rows[tail[i] + 1];
    }
  }

  lemma {:induction false} ShiftLists(tail: seq<nat>, rows: seq<string>, id: string)
    requires rows != [] && ListsOwned(tail, rows[1..], id)
    ensures ListsOwned((if BelongsToTenant(rows[0], id) then [0] else []) + Shift(tail), rows, id)
  {
    forall j: nat | j < |rows|
      ensures BelongsToTenant(rows[j], id) <==> j in (if BelongsToTenant(rows[0], id) then [0] else []) + Shift(tail)
    {
      ShiftHas(tail, j);
      if j > 0 { assert rows[j] == rows[1..][j - 1]; }
    }
  }

  lemma {:induction false} FilterKeptAt(rows: seq<string>, id: string) returns (at: seq<nat>)
    ensures KeptAt(at, FilterOwned(rows, id), rows) && ListsOwned(at, rows, id)
  {
    at := [];
    if rows != [] {
      var tail := FilterKeptAt(rows[1..], id);
      var owned := BelongsToTenant(rows[0], id);
      at := (if owned then [0] else []) + Shift(tail);
      ShiftKeeps(tail, FilterOwned(rows[1..], id), rows);
      ShiftLists(tail, rows, id);
      if !owned {
        assert at == Shift(tail);
        assert FilterOwned(rows, id) == FilterOwned(rows[1..], id);
      }
    }
  }

  /** What the search path names: the owned rows in their order, or the primary schema, and then `public`. */
  ghost predicate NamesOwnedRows(names: seq<string>, rows: seq<string>, tenantId: string)
  {
    exists kept: seq<string> ::
      KeepsOwned(kept, rows, CleanTenant(tenantId))
      && names == (if kept != [] then kept else ["tenant_" + CleanTenant(tenantId)]) + ["public"]
  }

  /** For any rows the path reads as exactly the rows of the tenant, in their order, or else its primary schema. */
  lemma {:induction false} PathNamesOwnedRows(rows: seq<string>, tenantId: string)
    ensures ReadPath(TenantSearchPath(rows, tenantId)).Some?
    ensures NamesOwnedRows(ReadPath(TenantSearchPath(rows, tenantId)).value, rows, tenantId)
  {
    TenantPathReadsOwnedOnly(rows, tenantId);
    var kept := FilterOwned(rows, CleanTenant(tenantId));
    var at := FilterKeptAt(rows, CleanTenant(tenantId));
    assert KeepsOwned(kept, rows, CleanTenant(tenantId));
  }

  /** The rows of the schema query are all named, in the order of the query. */
  lemma {:induction false} PathNamesQueryRows(rows: seq<string>, tenantId: string)
    requires forall i | 0 <= i < |rows| :: SchemaQuerySelects(rows[i], CleanTenant(tenantId))
    ensures ReadPath(TenantSearchPath(rows, tenantId))
         == Some((if rows != [] then rows else ["tenant_" + CleanTenant(tenantId)]) + ["public"])
  {
    FilterKeepsQueryRows(rows, CleanTenant(tenantId));
    TenantPathReadsOwnedOnly(rows, tenantId);
  }

  // ---- raw ids ----

  /** Stripping works character by character: word characters stay, any other goes. */
  lemma {:induction false} CleanConcat(a: string, b: string)
    ensures CleanTenant(a + b) == CleanTenant(a) + CleanTenant(b)
  {
    if a == "" { assert a + b == b; }
    else { assert (a + b)[1..] == a[1..] + b; CleanConcat(a[1..], b); }
  }

  lemma {:induction false} CleanChar(c: char)
    ensures CleanTenant([c]) ==
            if 'a' <= c <= 'z' || 'A' <= c <= 'Z' || '0' <= c <= '9' || c == '_' then [c] else ""
  {
    assert [c][1..] == "";
  }

  lemma {:induction false} CleanShortens(id: string)
    ensures |CleanTenant(id)| <= |id|
    ensures !AllWord(id) ==> |CleanTenant(id)| < |id|
  {
    if id != "" {
      CleanShortens(id[1..]);
      assert id == [id[0]] + id[1..];
    }
  }

  /** Whatever rows the query returns, the path names schemas of exactly this id. */
  ghost predicate PathIsOwn(id: string)
  {
    forall rows: seq<string>, name: string | name in PathSchemas(rows, id) :: BelongsToTenant(name, id)
  }

  /** The path of a raw id is its own exactly when the id holds nothing that is stripped. */
  lemma {:induction false} PathIsOwnIff(id: string)
    ensures PathIsOwn(id) <==> AllWord(id)
  {
    if AllWord(id) { CleanKeepsWords(id); }
    else {
      CleanShortens(id);
      var name := BaseSchema(CleanTenant(id));
      assert PathSchemas([], id) == [name];
      assert name in PathSchemas([], id);
      assert |name| < |BaseSchema(id)| < |BaseSchema(id) + "_"|;
      assert !BelongsToTenant(name, id);
    }
  }

  ghost predicate SamePaths(a: string, b: string)
  {
    forall rows: seq<string> :: TenantSearchPath(rows, a) == TenantSearchPath(rows, b)
  }

  /** Two raw ids always get the same path exactly when they are the same once stripped. */
  lemma {:induction false} SamePathsIff(a: string, b: string)
    ensures SamePaths(a, b) <==> CleanTenant(a) == CleanTenant(b)
  {
    if SamePaths(a, b) {
      assert TenantSearchPath([], a) == TenantSearchPath([], b);
      RenderIsInjective(PathSchemas([], a), PathSchemas([], b));
      var A, B := BaseSchema(CleanTenant(a)), BaseSchema(CleanTenant(b));
      assert PathSchemas([], a) == [A] && PathSchemas([], b) == [B];
      assert A == PathSchemas([], a)[0] == PathSchemas([], b)[0] == B;
      assert CleanTenant(a) == A[7..] == B[7..] == CleanTenant(b);
    }
  }

  /** `a-b` and `ab` are such a pair, although their namespaces do not overlap. */
  lemma {:induction false} StrippingAliasesIds()
    ensures SamePaths("a-b", "ab") && !Overlap("a-b", "ab") && !PathIsOwn("a-b") && PathIsOwn("ab")
  {
    assert CleanTenant("a-b") == "a" + CleanTenant("-b");
    assert CleanTenant("-b") == "" + CleanTenant("b");
    assert CleanTenant("b") == "b" + CleanTenant("");
    assert CleanTenant("ab") == "a" + CleanTenant("b");
    SamePathsIff("a-b", "ab");
    assert !IsWord("a-b"[1]);
    PathIsOwnIff("a-b");
    PathIsOwnIff("ab");
  }
}
