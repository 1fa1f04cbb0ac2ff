/**
 * The built-in operators that lower to SQL (`search`, `scan`, `grep`): the text they
 * hand to the compiler, and why it has as many placeholders as parameters.
 */
module BuiltinOperators {
  import opened Prelude
  import opened PipelinePlan
  import T = PipelineText
  import P = PlanSemantics

  // ------------------------------------------------------------------ SQL texts

  /** A statement made of words, quoted names, quoted literals and placeholders. */
  datatype Sql = Words(s: string) | Name(s: string) | Literal(s: string) | Mark | Then(a: Sql, b: Sql)

  function Text(t: Sql): string {
    match t
    case Words(s) => s
    case Name(s) => "\"" + s + "\""
    case Literal(s) => "'" + s + "'"
    case Mark => "?"
    case Then(a, b) => Text(a) + Text(b)
  }

  /** Words hold no quote and no question mark; quoted text does not hold its quote. */
  predicate Clean(t: Sql) {
    match t
    case Words(s) => P.Quiet(s)
    case Name(s) => '"' !in s
    case Literal(s) => '\'' !in s
    case Mark => true
    case Then(a, b) => Clean(a) && Clean(b)
  }

  function Marks(t: Sql): nat {
    match t
    case Mark => 1
    case Then(a, b) => Marks(a) + Marks(b)
    case _ => 0
  }

  /** Inside a literal nothing counts until its quote comes. */
  lemma {:induction false} InsideQuotes(mark: char, s: string)
    requires T.IsQuoteMark(mark) && mark !in s
    ensures T.QuoteAfter(T.Inside(mark), s) == T.Inside(mark) && T.Placeholders(T.Inside(mark), s) == 0
    decreases |s|
  {
    if s != [] {
      InsideQuotes(mark, s[..|s| - 1]);
    }
  }

  lemma OneChar(q: T.Quote, c: char)
    ensures T.QuoteAfter(q, [c]) == T.Toggle(q, c)
    ensures T.Placeholders(q, [c]) == if c == '?' && q == T.Outside then 1 else 0
  {
    var front := [c][..0];
    assert front == [] && T.QuoteAfter(q, front) == q && T.Placeholders(q, front) == 0;
  }

  lemma Quoted(mark: char, s: string)
    requires T.IsQuoteMark(mark) && mark !in s
    ensures T.Balanced([mark] + s + [mark]) && T.Placeholders(T.Outside, [mark] + s + [mark]) == 0
  {
    var open := [mark];
    OneChar(T.Outside, mark);
    OneChar(T.Inside(mark), mark);
    InsideQuotes(mark, s);
    T.QuoteAfterConcat(T.Outside, open, s);
    T.PlaceholdersConcat(T.Outside, open, s);
    T.QuoteAfterConcat(T.Outside, open + s, open);
    T.PlaceholdersConcat(T.Outside, open + s, open);
  }

  /** Such a text closes its quotes and has exactly its marks as placeholders. */
  lemma {:induction false} TextIsClean(t: Sql)
    requires Clean(t)
    ensures T.Balanced(Text(t)) && T.Placeholders(T.Outside, Text(t)) == Marks(t)
  {
    match t {
      case Words(s) => P.QuietText(T.Outside, s);
      case Name(s) => Quoted('"', s);
      case Literal(s) => Quoted('\'', s);
      case Mark => OneChar(T.Outside, '?');
      case Then(a, b) =>
        TextIsClean(a);
        TextIsClean(b);
        T.QuoteAfterConcat(T.Outside, Text(a), Text(b));
        T.PlaceholdersConcat(T.Outside, Text(a), Text(b));
    }
  }

  function Join(a: Sql, b: Sql): (t: Sql)
    ensures Clean(a) && Clean(b) ==> Clean(t)
    ensures Marks(t) == Marks(a) + Marks(b)
  {
    Then(a, b)
  }

  function Join3(a: Sql, b: Sql, c: Sql): (t: Sql)
    ensures Clean(a) && Clean(b) && Clean(c) ==> Clean(t)
    ensures Marks(t) == Marks(a) + Marks(b) + Marks(c)
  {
    Then(a, Then(b, c))
  }

  function Join5(a: Sql, b: Sql, c: Sql, d: Sql, e: Sql): (t: Sql)
    ensures Clean(a) && Clean(b) && Clean(c) && Clean(d) && Clean(e) ==> Clean(t)
    ensures Marks(t) == Marks(a) + Marks(b) + Marks(c) + Marks(d) + Marks(e)
  {
    Join3(a, b, Join3(c, d, e))
  }

  function Phrase(s: string): (t: Sql)
    ensures P.Quiet(s) ==> Clean(t)
    ensures Marks(t) == 0
  {
    Words(s)
  }

  function Identifier(s: string): (t: Sql)
    ensures IsIdent(s) || '"' !in s ==> Clean(t)
    ensures Marks(t) == 0
  {
    assert IsIdent(s) && '"' in s ==> IsIdentChar('"');
    Name(s)
  }

  /** The `?` of a parameter. */
  function Placeholder(): (t: Sql)
    ensures Clean(t) && Marks(t) == 1
  {
    Mark
  }

  // -------------------------------------------------------------- identifiers

  predicate IsIdentChar(c: char) {
    'a' <= c <= 'z' || 'A' <= c <= 'Z' || '0' <= c <= '9' || c == '_'
  }

  /** `_IDENT`, which every table and column name has passed. */
  predicate IsIdent(s: string) {
    forall i :: 0 <= i < |s| ==> IsIdentChar(s[i])
  }

  lemma IdentsAreQuiet(s: string)
    requires IsIdent(s)
    ensures P.Quiet(s)
  {
    forall i | 0 <= i < |s|
      ensures s[i] != '?' && !T.IsQuoteMark(s[i])
    {
      assert IsIdentChar(s[i]);
    }
  }

  lemma DigitsAreIdents(n: nat)
    ensures IsIdent(Digits(n)) && P.Quiet(Digits(n))
  {
    hide Digits;
    assert forall i :: 0 <= i < |Digits(n)| ==> IsIdentChar(Digits(n)[i]);
    IdentsAreQuiet(Digits(n));
  }

  // ----------------------------------------------------------------- phrases

  /* The fixed words of the statements, none with a quote or a question mark. */

  const RANKED_BY := " AS (SELECT pk, row_number() OVER (ORDER BY "
  const RANK_FROM := ") rk FROM "
  const ORDER_BY := " ORDER BY "
  const LIMIT := " LIMIT "
  const AS_FLOATS := "::FLOAT["
  const PK_DISTANCE := " pk, array_cosine_distance("
  const DISTANCE_FROM := ") dd FROM "
  const NOT_NULL := " IS NOT NULL"
  const MATCH_BM_25 := ".match_bm25("
  const FIELDS := ", fields := "
  const SCORE_FROM := " sc FROM "
  const SUB_SELECT := "(SELECT "
  const EITHER_KEY := "_h AS (SELECT COALESCE(_v.pk, _f.pk) pk, "
  const VECTOR_PART := "COALESCE(1.0/(60+_v.rk),0)+"
  const TOKEN_PART := "COALESCE(1.0/(60+_f.rk),0) score "
  const OUTER_JOIN := "FROM _v FULL OUTER JOIN _f "
  const ON_KEY := "ON _v.pk=_f.pk"
  const BASE_COLUMNS := ") SELECT base.*, _h.score AS _score FROM ("
  const JOIN_HITS := ") base JOIN _h ON CAST(base."
  const AS_VARCHAR := " AS VARCHAR) = "
  const BEST_OF := " ORDER BY score DESC LIMIT "
  const HIT_KEY := "CAST(_h.pk AS VARCHAR)"
  const LANCE_VECTORS := "lance_vector_search("
  const LANCE_TOKENS := "lance_fts("
  const KEY_BEST_OF := "_h.pk ORDER BY _score DESC LIMIT "
  const GREP_IN := "SELECT * FROM _in WHERE regexp_matches(CAST("
  const AS_VARCHAR_AND := " AS VARCHAR), "
  const WHERE := " WHERE "
  const COMMA := ", "
  const AND := " AND "
  const CLOSE := ")"
  const CLOSE_BRACKET := "]"
  const CLOSE_TWO := "))"
  const CLOSE_ARM := ")), "
  const WITH := "WITH "
  const KEEP := ", k="
  const KEY_COMMA := " pk, "
  const NULL_NOW := " IS NULL"
  const UP_TO := " <= "
  const OPEN := " AND ("
  const OR := " OR "
  const AFTER := " > "
  const FROM := " >= "
  const SELECT := "SELECT "
  const FROM_TABLE := " FROM "
  const ARM_V := "_v"
  const ARM_F := "_f"
  const BY_DISTANCE := "dd"
  const BY_SCORE := "sc DESC"
  const BY_LANCE := "_distance"
  const BY_LANCE_SCORE := "_score DESC"

  lemma RankingIsQuiet()
    ensures P.Quiet(RANKED_BY) && P.Quiet(RANK_FROM) && P.Quiet(ORDER_BY) && P.Quiet(LIMIT)
    ensures P.Quiet(AS_FLOATS)
  {
  }

  lemma VectorArmIsQuiet()
    ensures P.Quiet(PK_DISTANCE) && P.Quiet(DISTANCE_FROM) && P.Quiet(NOT_NULL) && P.Quiet(MATCH_BM_25)
    ensures P.Quiet(FIELDS) && P.Quiet(SCORE_FROM) && P.Quiet(SUB_SELECT)
  {
  }

  lemma ScorePartsAreQuiet()
    ensures P.Quiet(EITHER_KEY) && P.Quiet(VECTOR_PART)
  {
  }

  lemma ArmsJoinIsQuiet()
    ensures P.Quiet(TOKEN_PART) && P.Quiet(OUTER_JOIN) && P.Quiet(ON_KEY)
  {
  }

  lemma HitColumnsAreQuiet()
    ensures P.Quiet(BASE_COLUMNS)
  {
  }

  lemma HitJoinIsQuiet()
    ensures P.Quiet(JOIN_HITS) && P.Quiet(AS_VARCHAR) && P.Quiet(BEST_OF) && P.Quiet(HIT_KEY)
  {
  }

  lemma SideDatasetIsQuiet()
    ensures P.Quiet(LANCE_VECTORS) && P.Quiet(LANCE_TOKENS) && P.Quiet(KEY_BEST_OF)
  {
  }

  lemma FilterIsQuiet()
    ensures P.Quiet(GREP_IN) && P.Quiet(AS_VARCHAR_AND) && P.Quiet(WHERE) && P.Quiet(COMMA)
    ensures P.Quiet(AND) && P.Quiet(CLOSE) && P.Quiet(CLOSE_BRACKET) && P.Quiet(CLOSE_TWO)
    ensures P.Quiet(CLOSE_ARM) && P.Quiet(WITH)
  {
  }

  lemma VisibilityIsQuiet()
    ensures P.Quiet(KEEP) && P.Quiet(KEY_COMMA) && P.Quiet(NULL_NOW) && P.Quiet(UP_TO)
    ensures P.Quiet(OPEN) && P.Quiet(OR) && P.Quiet(AFTER) && P.Quiet(FROM)
    ensures P.Quiet(SELECT) && P.Quiet(FROM_TABLE) && P.Quiet(ARM_V) && P.Quiet(ARM_F)
    ensures P.Quiet(BY_DISTANCE) && P.Quiet(BY_SCORE) && P.Quiet(BY_LANCE) && P.Quiet(BY_LANCE_SCORE)
  {
  }

  /** What the builders below rely on. */
  predicate QuietPhrases() {
    && IsIdent("ds") && IsIdent("deleted_ds")
    && P.Quiet(RANKED_BY) && P.Quiet(RANK_FROM) && P.Quiet(ORDER_BY) && P.Quiet(LIMIT) && P.Quiet(AS_FLOATS)
    && P.Quiet(PK_DISTANCE) && P.Quiet(DISTANCE_FROM) && P.Quiet(NOT_NULL) && P.Quiet(MATCH_BM_25) && P.Quiet(FIELDS)
    && P.Quiet(SCORE_FROM) && P.Quiet(SUB_SELECT) && P.Quiet(EITHER_KEY) && P.Quiet(VECTOR_PART) && P.Quiet(TOKEN_PART)
    && P.Quiet(OUTER_JOIN) && P.Quiet(ON_KEY) && P.Quiet(BASE_COLUMNS) && P.Quiet(JOIN_HITS) && P.Quiet(AS_VARCHAR)
    && P.Quiet(BEST_OF) && P.Quiet(HIT_KEY) && P.Quiet(LANCE_VECTORS) && P.Quiet(LANCE_TOKENS) && P.Quiet(KEY_BEST_OF)
    && P.Quiet(GREP_IN) && P.Quiet(AS_VARCHAR_AND) && P.Quiet(WHERE) && P.Quiet(COMMA) && P.Quiet(AND)
    && P.Quiet(CLOSE) && P.Quiet(CLOSE_BRACKET) && P.Quiet(CLOSE_TWO) && P.Quiet(CLOSE_ARM) && P.Quiet(WITH)
    && P.Quiet(KEEP) && P.Quiet(KEY_COMMA) && P.Quiet(NULL_NOW) && P.Quiet(UP_TO) && P.Quiet(OPEN)
    && P.Quiet(OR) && P.Quiet(AFTER) && P.Quiet(FROM) && P.Quiet(SELECT) && P.Quiet(FROM_TABLE)
    && P.Quiet(ARM_V) && P.Quiet(ARM_F) && P.Quiet(BY_DISTANCE) && P.Quiet(BY_SCORE) && P.Quiet(BY_LANCE)
    && P.Quiet(BY_LANCE_SCORE)
  }

  lemma PhrasesAreQuiet()
    ensures QuietPhrases()
  {
    RankingIsQuiet();
    VectorArmIsQuiet();
    ScorePartsAreQuiet();
    ArmsJoinIsQuiet();
    HitColumnsAreQuiet();
    HitJoinIsQuiet();
    SideDatasetIsQuiet();
    FilterIsQuiet();
    VisibilityIsQuiet();
    hide P.Quiet;
  }

  // ------------------------------------------------------------- the window

  /** The window as `YYYYMMDD` strings. */
  datatype Window = Window(dsStart: Option<string>, dsEnd: Option<string>)

  predicate WindowOk(w: Window) {
    (w.dsStart.Some? ==> IsIdent(w.dsStart.value)) && (w.dsEnd.Some? ==> IsIdent(w.dsEnd.value))
  }

  function StringLiteral(s: string): (t: Sql)
    ensures IsIdent(s) ==> Clean(t)
    ensures Marks(t) == 0
  {
    assert IsIdent(s) && '\'' in s ==> IsIdentChar('\'');
    Literal(s)
  }

  function AliveNow(): (t: Sql)
    ensures Clean(t) && Marks(t) == 0
  {
    PhrasesAreQuiet();
    hide P.Quiet;
    Join(Identifier("deleted_ds"), Phrase(NULL_NOW))
  }

  function AliveAt(d: string): (t: Sql)
    ensures IsIdent(d) ==> Clean(t)
    ensures Marks(t) == 0
  {
    PhrasesAreQuiet();
    hide Clean;
    hide Marks;
    hide P.Quiet;
    hide IsIdent;
    Join5(Join3(Identifier("ds"), Phrase(UP_TO), StringLiteral(d)),
          Phrase(OPEN),
          AliveNow(),
          Phrase(OR),
          Join(Join3(Identifier("deleted_ds"), Phrase(AFTER), StringLiteral(d)), Phrase(CLOSE)))
  }

  /** `_asof_conds`, joined by AND. */
  function Conds(w: Window): (t: Sql)
    ensures WindowOk(w) ==> Clean(t)
    ensures Marks(t) == 0
  {
    PhrasesAreQuiet();
    hide Clean;
    hide Marks;
    hide P.Quiet;
    hide IsIdent;
    var alive := if w.dsEnd.None? then AliveNow() else AliveAt(w.dsEnd.value);
    if w.dsStart.None? then alive else Join5(alive, Phrase(AND), Identifier("ds"), Phrase(FROM), StringLiteral(w.dsStart.value))
  }

  predicate AllIdents(names: seq<string>) {
    forall i :: 0 <= i < |names| ==> IsIdent(names[i])
  }

  function Columns(names: seq<string>): (t: Sql)
    requires names != []
    ensures AllIdents(names) ==> Clean(t)
    ensures Marks(t) == 0
  {
    PhrasesAreQuiet();
    hide Clean;
    hide Marks;
    hide P.Quiet;
    hide IsIdent;
    if |names| == 1 then Identifier(names[0]) else Join3(Identifier(names[0]), Phrase(COMMA), Columns(names[1..]))
  }

  /** A table as the schema declares it. */
  datatype Table = Table(name: string, columns: seq<string>, primaryKey: string)

  predicate TableOk(t: Table) {
    IsIdent(t.name) && AllIdents(t.columns) && IsIdent(t.primaryKey)
  }

  const META := ["ds", "created_at", "deleted_ds", "deleted_at"]

  function Physical(table: string): (s: string)
    ensures IsIdent(table) ==> IsIdent(s)
  {
    "_sb_" + table
  }

  lemma MetaIsOk(columns: seq<string>)
    requires AllIdents(columns)
    ensures AllIdents(columns + META)
  {
    assert AllIdents(META);
  }

  /** `_visible`. */
  function Visible(t: Table, w: Window): (sql: Sql)
    ensures TableOk(t) && WindowOk(w) ==> Clean(sql)
    ensures Marks(sql) == 0
  {
    assert AllIdents(t.columns) ==> AllIdents(t.columns + META) by {
      if AllIdents(t.columns) {
        MetaIsOk(t.columns);
      }
    }
    hide AllIdents;
    PhrasesAreQuiet();
    hide Clean;
    hide Marks;
    hide P.Quiet;
    hide IsIdent;
    Join5(Phrase(SELECT), Columns(t.columns + META), Phrase(FROM_TABLE), Identifier(Physical(t.name)), Join(Phrase(WHERE), Conds(w)))
  }

  // ------------------------------------------------------------ hybrid search

  function Num(n: nat): (t: Sql)
    ensures Clean(t) && Marks(t) == 0
  {
    DigitsAreIdents(n);
    Phrase(Digits(n))
  }

  /** An identifier that is not quoted. */
  function Bare(name: string): (t: Sql)
    ensures IsIdent(name) ==> Clean(t)
    ensures Marks(t) == 0
  {
    assert IsIdent(name) ==> P.Quiet(name) by {
      if IsIdent(name) {
        IdentsAreQuiet(name);
      }
    }
    Phrase(name)
  }

  function VecColumn(col: string): (r: string)
    ensures IsIdent(col) ==> IsIdent(r)
  {
    "_vec_" + col
  }

  function TokColumn(col: string): (r: string)
    ensures IsIdent(col) ==> IsIdent(r)
  {
    "_tok_" + col
  }

  function FtsSchema(table: string): (r: string)
    ensures IsIdent(table) ==> IsIdent(r)
  {
    "fts_main__sb_" + table
  }

  /** `?::FLOAT[dim]`. */
  function Query(dim: nat): (t: Sql)
    ensures Clean(t) && Marks(t) == 1
  {
    PhrasesAreQuiet();
    hide Clean;
    hide Marks;
    hide P.Quiet;
    hide IsIdent;
    Join(Join3(Placeholder(), Phrase(AS_FLOATS), Num(dim)), Phrase(CLOSE_BRACKET))
  }

  /** `name AS (SELECT pk, row_number() OVER (ORDER BY order) rk FROM `. */
  function Ranked(name: Sql, order: Sql): (t: Sql)
    ensures Clean(name) && Clean(order) ==> Clean(t)
    ensures Marks(t) == Marks(name) + Marks(order)
  {
    PhrasesAreQuiet();
    hide Clean;
    hide Marks;
    hide P.Quiet;
    hide IsIdent;
    Join(Join3(name, Phrase(RANKED_BY), order), Phrase(RANK_FROM))
  }

  /** ` AND conds ORDER BY order LIMIT n))`. */
  function Cut(w: Window, order: Sql, n: nat): (t: Sql)
    ensures WindowOk(w) && Clean(order) ==> Clean(t)
    ensures Marks(t) == Marks(order)
  {
    PhrasesAreQuiet();
    hide Clean;
    hide Marks;
    hide P.Quiet;
    hide IsIdent;
    hide WindowOk;
    Join5(Join(Phrase(AND), Conds(w)), Phrase(ORDER_BY), Join(order, Phrase(LIMIT)), Num(n), Phrase(CLOSE_TWO))
  }

  function VssVectors(t: Table, col: string, dim: nat, w: Window, cand: nat): (sql: Sql)
    ensures TableOk(t) && IsIdent(col) && WindowOk(w) ==> Clean(sql)
    ensures Marks(sql) == 1
  {
    PhrasesAreQuiet();
    hide Clean;
    hide Marks;
    hide P.Quiet;
    hide IsIdent;
    hide WindowOk;
    Join5(Join(Ranked(Phrase(ARM_V), Phrase(BY_DISTANCE)), Phrase(SUB_SELECT)),
          Join5(Identifier(t.primaryKey), Phrase(PK_DISTANCE), Identifier(VecColumn(col)), Phrase(COMMA), Query(dim)),
          Join3(Phrase(DISTANCE_FROM), Identifier(Physical(t.name)), Phrase(WHERE)),
          Join(Identifier(VecColumn(col)), Phrase(NOT_NULL)),
          Cut(w, Phrase(BY_DISTANCE), cand))
  }

  /** `fts_main_table.match_bm25("pk", ?, fields := 'tokens')`. */
  function Bm25(t: Table, col: string): (sql: Sql)
    ensures TableOk(t) && IsIdent(col) ==> Clean(sql)
    ensures Marks(sql) == 1
  {
    PhrasesAreQuiet();
    hide Clean;
    hide Marks;
    hide P.Quiet;
    hide IsIdent;
    Join5(Join(Bare(FtsSchema(t.name)), Phrase(MATCH_BM_25)),
          Join3(Identifier(t.primaryKey), Phrase(COMMA), Placeholder()),
          Phrase(FIELDS),
          StringLiteral(TokColumn(col)),
          Phrase(CLOSE))
  }

  function VssTokens(t: Table, col: string, w: Window, cand: nat): (sql: Sql)
    ensures TableOk(t) && IsIdent(col) && WindowOk(w) ==> Clean(sql)
    ensures Marks(sql) == 2
  {
    PhrasesAreQuiet();
    hide Clean;
    hide Marks;
    hide P.Quiet;
    hide IsIdent;
    hide WindowOk;
    Join5(Join(Ranked(Phrase(ARM_F), Phrase(BY_SCORE)), Phrase(SUB_SELECT)),
          Join3(Identifier(t.primaryKey), Phrase(KEY_COMMA), Bm25(t, col)),
          Join3(Phrase(SCORE_FROM), Identifier(Physical(t.name)), Phrase(WHERE)),
          Join(Bm25(t, col), Phrase(NOT_NULL)),
          Cut(w, Phrase(BY_SCORE), cand))
  }

  /** The reciprocal rank fusion that both backends share. */
  function Fusion(): (t: Sql)
    ensures Clean(t) && Marks(t) == 0
  {
    PhrasesAreQuiet();
    hide Clean;
    hide Marks;
    hide P.Quiet;
    hide IsIdent;
    Join5(Phrase(EITHER_KEY), Phrase(VECTOR_PART), Phrase(TOKEN_PART), Phrase(OUTER_JOIN), Phrase(ON_KEY))
  }

  /** The join with the visible rows. */
  function Base(t: Table, w: Window): (sql: Sql)
    ensures TableOk(t) && WindowOk(w) ==> Clean(sql)
    ensures Marks(sql) == 0
  {
    PhrasesAreQuiet();
    hide Clean;
    hide Marks;
    hide P.Quiet;
    hide IsIdent;
    hide WindowOk;
    Join5(Phrase(BASE_COLUMNS), Visible(t, w), Phrase(JOIN_HITS), Identifier(t.primaryKey), Phrase(AS_VARCHAR))
  }

  const OVERFETCH := 4

  /** `_vss_search_sql`. */
  function VssSql(t: Table, col: string, dim: nat, k: nat, w: Window): (sql: Sql)
    ensures TableOk(t) && IsIdent(col) && WindowOk(w) ==> Clean(sql)
    ensures Marks(sql) == 3
  {
    PhrasesAreQuiet();
    hide Clean;
    hide Marks;
    hide P.Quiet;
    hide IsIdent;
    hide WindowOk;
    hide TableOk;
    var cand := if w.dsEnd.Some? then k * OVERFETCH else k;
    Join5(Join3(Phrase(WITH), VssVectors(t, col, dim, w, cand), Phrase(COMMA)),
          Join(VssTokens(t, col, w, cand), Phrase(COMMA)),
          Join3(Fusion(), Phrase(BEST_OF), Num(k)),
          Base(t, w),
          Phrase(HIT_KEY))
  }

  /** `'column', `, with a comma before. */
  function Column(col: string): (t: Sql)
    ensures IsIdent(col) ==> Clean(t)
    ensures Marks(t) == 0
  {
    PhrasesAreQuiet();
    hide Clean;
    hide Marks;
    hide P.Quiet;
    hide IsIdent;
    Join3(Phrase(COMMA), StringLiteral(col), Phrase(COMMA))
  }

  /** `_lance_search_sql`, in front of the first path to the dataset. */
  function LanceHead(): (sql: Sql)
    ensures Clean(sql) && Marks(sql) == 0
  {
    PhrasesAreQuiet();
    hide Clean;
    hide Marks;
    hide P.Quiet;
    Join3(Phrase(WITH), Ranked(Phrase(ARM_V), Phrase(BY_LANCE)), Phrase(LANCE_VECTORS))
  }

  /** The end of the vector arm, and the token arm up to the second path. */
  function LanceArms(dim: nat, k: nat): (sql: Sql)
    ensures Clean(sql) && Marks(sql) == 1
  {
    PhrasesAreQuiet();
    hide Clean;
    hide Marks;
    hide P.Quiet;
    Join5(Query(dim),
          Phrase(KEEP),
          Join(Num(k * OVERFETCH), Phrase(CLOSE_ARM)),
          Ranked(Phrase(ARM_F), Phrase(BY_LANCE_SCORE)),
          Phrase(LANCE_TOKENS))
  }

  function LanceMiddle(col: string, dim: nat, k: nat): (sql: Sql)
    ensures IsIdent(col) ==> Clean(sql)
    ensures Marks(sql) == 1
  {
    hide Clean;
    hide Marks;
    hide IsIdent;
    Join(Column(LanceVec(col)), LanceArms(dim, k))
  }

  function LanceTail(t: Table, col: string, k: nat, w: Window): (sql: Sql)
    ensures TableOk(t) && IsIdent(col) && WindowOk(w) ==> Clean(sql)
    ensures Marks(sql) == 1
  {
    PhrasesAreQuiet();
    hide Clean;
    hide Marks;
    hide P.Quiet;
    hide IsIdent;
    hide WindowOk;
    hide TableOk;
    Join5(Column(LanceTok(col)),
          Join3(Placeholder(), Phrase(KEEP), Num(k * OVERFETCH)),
          Phrase(CLOSE_ARM),
          Join(Fusion(), Base(t, w)),
          Join(Phrase(KEY_BEST_OF), Num(k)))
  }

  /** `_lance_search_sql`. */
  function LanceSql(dataset: string, t: Table, col: string, dim: nat, k: nat, w: Window): Sql {
    Then(LanceHead(), Then(Literal(dataset), Then(LanceMiddle(col, dim, k), Then(Literal(dataset), LanceTail(t, col, k, w)))))
  }

  function LanceVec(col: string): (r: string)
    ensures IsIdent(col) ==> IsIdent(r)
  {
    "vec_" + col
  }

  function LanceTok(col: string): (r: string)
    ensures IsIdent(col) ==> IsIdent(r)
  {
    "tok_" + col
  }

  // ------------------------------------------------ the path of the dataset

  /** The quoted path closes its quotes, and holds no placeholder outside them. */
  predicate PathOk(path: string) {
    var p := "'" + path + "'";
    T.Balanced(p) && T.Placeholders(T.Outside, p) == 0
  }

  /** Reading three texts with a path between them. */
  lemma FivePieces(a: string, p: string, b: string, c: string)
    ensures var text := a + (p + (b + (p + c)));
            var q1 := T.QuoteAfter(T.Outside, a);
            var q2 := T.QuoteAfter(q1, p);
            var q3 := T.QuoteAfter(q2, b);
            var q4 := T.QuoteAfter(q3, p);
            && T.QuoteAfter(T.Outside, text) == T.QuoteAfter(q4, c)
            && T.Placeholders(T.Outside, text) == T.Placeholders(T.Outside, a) + T.Placeholders(q1, p) +
                 T.Placeholders(q2, b) + T.Placeholders(q3, p) + T.Placeholders(q4, c)
  {
    var q1 := T.QuoteAfter(T.Outside, a);
    var q2 := T.QuoteAfter(q1, p);
    var q3 := T.QuoteAfter(q2, b);
    T.QuoteAfterConcat(T.Outside, a, p + (b + (p + c)));
    T.QuoteAfterConcat(q1, p, b + (p + c));
    T.QuoteAfterConcat(q2, b, p + c);
    T.QuoteAfterConcat(q3, p, c);
    T.PlaceholdersConcat(T.Outside, a, p + (b + (p + c)));
    T.PlaceholdersConcat(q1, p, b + (p + c));
    T.PlaceholdersConcat(q2, b, p + c);
    T.PlaceholdersConcat(q3, p, c);
  }

  lemma LanceText(dataset: string, t: Table, col: string, dim: nat, k: nat, w: Window)
    ensures var p := "'" + dataset + "'";
            Text(LanceSql(dataset, t, col, dim, k, w)) ==
            Text(LanceHead()) + (p + (Text(LanceMiddle(col, dim, k)) + (p + Text(LanceTail(t, col, k, w)))))
  {
    hide LanceHead;
    hide LanceMiddle;
    hide LanceTail;
    var tail := Then(Literal(dataset), LanceTail(t, col, k, w));
    assert Text(tail) == "'" + dataset + "'" + Text(LanceTail(t, col, k, w));
    var rest := Then(LanceMiddle(col, dim, k), tail);
    assert Text(rest) == Text(LanceMiddle(col, dim, k)) + Text(tail);
    var all := Then(Literal(dataset), rest);
    assert Text(all) == "'" + dataset + "'" + Text(rest);
  }

  /** The statement of the side dataset is sound over every path that is well quoted. */
  lemma LanceIsSound(dataset: string, t: Table, col: string, dim: nat, k: nat, w: Window)
    requires TableOk(t) && IsIdent(col) && WindowOk(w) && PathOk(dataset)
    ensures var text := Text(LanceSql(dataset, t, col, dim, k, w)); T.Balanced(text) && T.Placeholders(T.Outside, text) == 2
  {
    TextIsClean(LanceHead());
    TextIsClean(LanceMiddle(col, dim, k));
    TextIsClean(LanceTail(t, col, k, w));
    LanceText(dataset, t, col, dim, k, w);
    FivePieces(Text(LanceHead()), "'" + dataset + "'", Text(LanceMiddle(col, dim, k)), Text(LanceTail(t, col, k, w)));
    hide T.QuoteAfter;
    hide T.Placeholders;
    hide Text;
    hide LanceSql;
  }

  /** A text without double quotes and question marks toggles between two states. */
  lemma {:induction false} Toggles(q: T.Quote, s: string)
    requires '"' !in s && '?' !in s && (q == T.Outside || q == T.Inside('\''))
    ensures T.QuoteAfter(q, s) == T.Outside || T.QuoteAfter(q, s) == T.Inside('\'')
    ensures T.QuoteAfter(q, s) == q <==> T.Balanced(s)
    ensures T.Placeholders(q, s) == 0
    decreases |s|
  {
    if s != [] {
      Toggles(q, s[..|s| - 1]);
      Toggles(T.Outside, s[..|s| - 1]);
    }
  }

  lemma QuotedPath(path: string)
    requires '"' !in path && '?' !in path
    ensures var p := "'" + path + "'"; '"' !in p && '?' !in p && (T.Balanced(p) <==> T.Balanced(path))
  {
    var mark := "'";
    var p := mark + path + mark;
    OneChar(T.Outside, '\'');
    OneChar(T.Inside('\''), '\'');
    assert mark == ['\''];
    T.QuoteAfterConcat(T.Outside, mark, path);
    T.QuoteAfterConcat(T.Outside, mark + path, mark);
    Toggles(T.Inside('\''), path);
    hide T.QuoteAfter;
    hide T.Placeholders;
  }

  /** Words and placeholders only. */
  predicate Unquoted(t: Sql) {
    match t
    case Then(a, b) => Unquoted(a) && Unquoted(b)
    case Words(_) => true
    case Mark => true
    case _ => false
  }

  lemma UnquotedThree(a: Sql, b: Sql, c: Sql)
    requires Unquoted(a) && Unquoted(b) && Unquoted(c)
    ensures Unquoted(Join3(a, b, c)) && Unquoted(Join(a, b))
  {
  }

  lemma ArmsAreUnquoted(dim: nat, k: nat)
    ensures Unquoted(LanceArms(dim, k))
  {
    hide Unquoted;
    hide Digits;
    UnquotedWords();
    UnquotedThree(Placeholder(), Phrase(AS_FLOATS), Num(dim));
    UnquotedThree(Join3(Placeholder(), Phrase(AS_FLOATS), Num(dim)), Phrase(CLOSE_BRACKET), Placeholder());
    UnquotedThree(Num(k * OVERFETCH), Phrase(CLOSE_ARM), Placeholder());
    UnquotedThree(Phrase(ARM_F), Phrase(RANKED_BY), Phrase(BY_LANCE_SCORE));
    UnquotedThree(Join3(Phrase(ARM_F), Phrase(RANKED_BY), Phrase(BY_LANCE_SCORE)), Phrase(RANK_FROM), Placeholder());
    var ranked, close := Ranked(Phrase(ARM_F), Phrase(BY_LANCE_SCORE)), Join(Num(k * OVERFETCH), Phrase(CLOSE_ARM));
    UnquotedThree(close, ranked, Phrase(LANCE_TOKENS));
    UnquotedThree(Query(dim), Phrase(KEEP), Join3(close, ranked, Phrase(LANCE_TOKENS)));
  }

  lemma UnquotedWords()
    ensures Unquoted(Mark) && forall s :: Unquoted(Words(s))
  {
  }

  lemma {:induction false} UnquotedText(t: Sql)
    requires Clean(t) && Unquoted(t)
    ensures '\'' !in Text(t)
  {
    match t {
      case Then(a, b) =>
        UnquotedText(a);
        UnquotedText(b);
      case _ =>
    }
  }

  lemma MiddleText(col: string, dim: nat, k: nat)
    ensures Text(LanceMiddle(col, dim, k)) == (", " + (("'" + LanceVec(col) + "'") + ", ")) + Text(LanceArms(dim, k))
  {
    hide LanceArms;
    hide LanceVec;
    var name := Then(Literal(LanceVec(col)), Words(COMMA));
    assert Text(name) == ("'" + LanceVec(col) + "'") + ", ";
    assert Column(LanceVec(col)) == Then(Words(COMMA), name);
    assert Text(Column(LanceVec(col))) == ", " + Text(name);
  }

  /** Begun inside a literal, the middle of the statement hides its placeholder. */
  lemma MiddleInside(col: string, dim: nat, k: nat)
    requires IsIdent(col)
    ensures var q, text := T.Inside('\''), Text(LanceMiddle(col, dim, k)); T.QuoteAfter(q, text) == q && T.Placeholders(q, text) == 0
  {
    var q, s, rest := T.Inside('\''), LanceVec(col), Text(LanceArms(dim, k));
    ArmsAreUnquoted(dim, k);
    hide LanceArms;
    UnquotedText(LanceArms(dim, k));
    hide Clean;
    hide Unquoted;
    hide Marks;
    var comma, mark := ", ", "'";
    MiddleText(col, dim, k);
    hide LanceMiddle;
    hide LanceVec;
    IdentsAreQuiet(s);
    P.QuietText(T.Outside, s);
    hide P.Quiet;
    hide IsIdent;
    InsideQuotes('\'', comma);
    InsideQuotes('\'', rest);
    OneChar(q, '\'');
    OneChar(T.Outside, '\'');
    assert mark == ['\''];
    hide T.QuoteAfter;
    hide T.Placeholders;
    assert T.QuoteAfter(q, mark + s + mark) == q && T.Placeholders(q, mark + s + mark) == 0 by {
      T.QuoteAfterConcat(q, mark, s);
      T.PlaceholdersConcat(q, mark, s);
      T.QuoteAfterConcat(q, mark + s, mark);
      T.PlaceholdersConcat(q, mark + s, mark);
    }
    T.QuoteAfterConcat(q, mark + s + mark, comma);
    T.PlaceholdersConcat(q, mark + s + mark, comma);
    T.QuoteAfterConcat(q, comma, (mark + s + mark) + comma);
    T.PlaceholdersConcat(q, comma, (mark + s + mark) + comma);
    T.QuoteAfterConcat(q, comma + ((mark + s + mark) + comma), rest);
    T.PlaceholdersConcat(q, comma + ((mark + s + mark) + comma), rest);
  }

  /**
   * A data directory without double quotes and question marks gives a sound search
   * statement if and only if its apostrophes are even in number: with one apostrophe
   * the first placeholder falls inside a literal.
   */
  lemma LanceIsSoundIff(dataset: string, t: Table, col: string, dim: nat, k: nat, w: Window)
    requires TableOk(t) && IsIdent(col) && WindowOk(w) && '"' !in dataset && '?' !in dataset
    ensures var text := Text(LanceSql(dataset, t, col, dim, k, w));
            T.Balanced(text) && T.Placeholders(T.Outside, text) == 2 <==> T.Balanced(dataset)
  {
    var p := "'" + dataset + "'";
    QuotedPath(dataset);
    Toggles(T.Outside, p);
    if T.Balanced(dataset) {
      LanceIsSound(dataset, t, col, dim, k, w);
    } else {
      Toggles(T.Inside('\''), p);
      TextIsClean(LanceHead());
      TextIsClean(LanceTail(t, col, k, w));
      MiddleInside(col, dim, k);
      LanceText(dataset, t, col, dim, k, w);
      FivePieces(Text(LanceHead()), p, Text(LanceMiddle(col, dim, k)), Text(LanceTail(t, col, k, w)));
      hide T.QuoteAfter;
      hide T.Placeholders;
      hide Text;
      hide LanceSql;
    }
  }

  // ------------------------------------------------------------ the operators

  datatype Backend = Vss | Lance(dataset: string) | NoBackend

  /** A built-in operator with its arguments after `prepare`: the query text embedded,
      tokenised, and normalised. */
  datatype Builtin =
    | Search(table: Table, col: string, dim: nat, k: nat, window: Window, vector: Value, unit: Value, tokens: Value)
    | Scan(table: Table, window: Window)
    | Grep(pattern: string, field: string)

  /** What the schema, the window check and the data directory promise. */
  predicate ArgsOk(backend: Backend, op: Builtin) {
    match op
    case Search(table, col, _, _, window, _, _, _) =>
      TableOk(table) && IsIdent(col) && WindowOk(window) && (backend.Lance? ==> PathOk(backend.dataset))
    case Scan(table, window) => TableOk(table) && WindowOk(window)
    case Grep(_, _) => true
  }

  /** `field.replace("_", "").isalnum()`, over any notion of letters and digits. */
  predicate GrepField(alnum: char -> bool, field: string) {
    (exists i :: 0 <= i < |field| && field[i] != '_') && forall i :: 0 <= i < |field| ==> field[i] == '_' || alnum(field[i])
  }

  function GrepSql(field: string): (t: Sql)
    ensures '"' !in field ==> Clean(t)
    ensures Marks(t) == 1
  {
    PhrasesAreQuiet();
    hide Clean;
    hide Marks;
    hide P.Quiet;
    hide IsIdent;
    Join5(Phrase(GREP_IN), Identifier(field), Phrase(AS_VARCHAR_AND), Placeholder(), Phrase(CLOSE))
  }

  /** `optimize_duck`, with `search_lower` behind it. */
  function Lower(alnum: char -> bool, backend: Backend, op: Builtin): Result<(Sql, seq<Value>)> {
    match op
    case Search(table, col, dim, k, window, vector, unit, tokens) =>
      (match backend
       case Vss => Ok((VssSql(table, col, dim, k, window), [vector, tokens, tokens]))
       case Lance(dataset) => Ok((LanceSql(dataset, table, col, dim, k, window), [unit, tokens]))
       case NoBackend => Err("search needs a searchable column + an embedder"))
    case Scan(table, window) => Ok((Visible(table, window), []))
    case Grep(pattern, field) =>
      if GrepField(alnum, field) then Ok((GrepSql(field), [Value.Text(pattern)])) else Err("illegal field")
  }

  /** What the compiler needs of a lowered body. */
  predicate Sound(sql: Sql, params: seq<Value>) {
    T.Balanced(Text(sql)) && T.Placeholders(T.Outside, Text(sql)) == |params|
  }

  lemma CleanIsSound(sql: Sql, params: seq<Value>)
    requires Clean(sql) && Marks(sql) == |params|
    ensures Sound(sql, params)
  {
    TextIsClean(sql);
  }

  /** The lowering of every built-in operator, on either backend, closes its quotes and
      has exactly as many placeholders as it brings parameters. */
  lemma LoweringIsSound(alnum: char -> bool, backend: Backend, op: Builtin)
    requires !alnum('"') && ArgsOk(backend, op) && Lower(alnum, backend, op).Ok?
    ensures Sound(Lower(alnum, backend, op).value.0, Lower(alnum, backend, op).value.1)
  {
    hide VssSql;
    hide LanceSql;
    hide Visible;
    hide GrepSql;
    hide Marks;
    hide Clean;
    hide IsIdent;
    hide TableOk;
    hide WindowOk;
    hide T.QuoteAfter;
    hide T.Placeholders;
    var (sql, params) := Lower(alnum, backend, op).value;
    if op.Search? && backend.Lance? {
      LanceIsSound(backend.dataset, op.table, op.col, op.dim, op.k, op.window);
    } else {
      assert op.Grep? ==> '"' !in op.field;
      assert Clean(sql) && Marks(sql) == |params|;
      CleanIsSound(sql, params);
    }
  }

  /** The stage is plain SQL, a shell command, or the lowering of a built-in operator. */
  ghost predicate BuiltinStage(alnum: char -> bool, backend: Backend, s: Stage) {
    match s
    case DuckSql(_) => true
    case Bash(_) => true
    case DuckSource(body, params) => exists op :: Lowers(alnum, backend, op, body, params) && !op.Grep?
    case DuckMiddle(body, params) => exists op :: Lowers(alnum, backend, op, body, params) && op.Grep?
  }

  ghost predicate Lowers(alnum: char -> bool, backend: Backend, op: Builtin, body: string, params: seq<Value>) {
    && ArgsOk(backend, op) && Lower(alnum, backend, op).Ok?
    && Text(Lower(alnum, backend, op).value.0) == body && Lower(alnum, backend, op).value.1 == params
  }

  lemma BuiltinsAreSound(alnum: char -> bool, backend: Backend, staged: seq<Stage>)
    requires !alnum('"') && forall i :: 0 <= i < |staged| ==> BuiltinStage(alnum, backend, staged[i])
    ensures P.SoundOperators(staged)
  {
    hide T.Placeholders;
    hide T.QuoteAfter;
    forall i | 0 <= i < |staged| && (staged[i].DuckSource? || staged[i].DuckMiddle?)
      ensures T.Balanced(staged[i].body) && T.Placeholders(T.Outside, staged[i].body) == |staged[i].params|
    {
      assert BuiltinStage(alnum, backend, staged[i]);
      var op :| Lowers(alnum, backend, op, staged[i].body, staged[i].params);
      LoweringIsSound(alnum, backend, op);
    }
  }

  /** The whole read path for queries of SQL, shell commands and built-in operators:
      nothing is left to assume about their lowering. */
  lemma BuiltinQueryMeansItsSegments(
      e: P.Engine, env: P.Env, views: P.Env, text: string, classify: Classifier, alnum: char -> bool, backend: Backend,
      staged: seq<Stage>, params: seq<Value>)
    requires T.Split(text).Ok? && StagesTo(classify, T.Split(text).value, staged)
    requires !alnum('"') && Compilable(staged, params) && forall i :: 0 <= i < |staged| ==> BuiltinStage(alnum, backend, staged[i])
    requires P.AllHygienic(e, Bind(staged, params)) && P.SameWorld(env, views)
    ensures var bounds := Bind(staged, params);
            && P.WellFormedPlan(Plan(bounds, true))
            && P.ExecPlan(e, env, Plan(bounds, true), []) == P.RunStages(e, views, bounds, P.Start)
  {
    BuiltinsAreSound(alnum, backend, staged);
    P.QueryMeansItsSegments(e, env, views, text, classify, staged, params);
  }
}
