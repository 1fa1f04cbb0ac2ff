/** Records, and the embedding step that derives their search columns. */
module Embedding {
  import opened Prelude

  type Column = string
  type Key = string
  type Vec = seq<real>

  /** A JSON value as the engine looks at it: null, or a value with its `str()`. */
  datatype Cell = Null | Val(text: string)

  type Record = map<Column, Cell>

  datatype TableSpec = TableSpec(name: string, columns: set<Column>, primaryKey: Column, searchable: seq<Column>)

  function Get(rec: Record, c: Column): Cell {
    if c in rec then rec[c] else Null
  }

  /** The record restricted to the declared columns, absent ones null. */
  function Normalize(spec: TableSpec, row: Record): Record {
    map c | c in spec.columns :: Get(row, c)
  }

  /** `str(rec[pk])`. */
  function KeyOf(spec: TableSpec, rec: Record): Key {
    match Get(rec, spec.primaryKey) case Null => "None" case Val(text) => text
  }

  /** The injected embedder and tokenizer: deterministic, text by text. */
  datatype Embedder = Embedder(dim: nat, vec: string -> Vec, tok: string -> string)

  /** The search columns of one row. */
  datatype Index = Index(vecs: map<Column, Option<Vec>>, toks: map<Column, Option<string>>)

  predicate HasText(c: Cell) {
    c.Val? && c.text != ""
  }

  function VecAt(e: Embedder, rec: Record, c: Column): Option<Vec> {
    if HasText(Get(rec, c)) then Some(e.vec(Get(rec, c).text)) else None
  }

  function TokAt(e: Embedder, rec: Record, c: Column): Option<string> {
    if HasText(Get(rec, c)) then Some(e.tok(Get(rec, c).text)) else None
  }

  /** What the search columns of a record should be: vector and tokens of each
      non-empty searchable text, null for the others, none without an embedder. */
  function IndexOf(emb: Option<Embedder>, spec: TableSpec, rec: Record): Index {
    match emb
    case None => Index(map[], map[])
    case Some(e) => Index(map c | c in spec.searchable :: VecAt(e, rec, c), map c | c in spec.searchable :: TokAt(e, rec, c))
  }

  predicate EmbeddableAt(e: Embedder, rec: Record, c: Column) {
    VecAt(e, rec, c).Some? ==> |VecAt(e, rec, c).value| == e.dim
  }

  /** The embedder honours its declared dimension on the record's texts. */
  predicate Embeddable(emb: Option<Embedder>, spec: TableSpec, rec: Record) {
    emb.Some? ==> forall c :: c in spec.searchable ==> EmbeddableAt(emb.value, rec, c)
  }

  /** `embed`: one vector for each text, all of the declared dimension, or an error. */
  method Embed(e: Embedder, texts: seq<string>) returns (r: Result<seq<Vec>>)
    ensures r.Ok? <==> forall i :: 0 <= i < |texts| ==> |e.vec(texts[i])| == e.dim
    ensures r.Ok? ==> |r.value| == |texts| && forall i :: 0 <= i < |texts| ==> r.value[i] == e.vec(texts[i])
  {
    var out := seq(|texts|, i requires 0 <= i < |texts| => e.vec(texts[i]));
    for i := 0 to |out|
      invariant forall j :: 0 <= j < i ==> |e.vec(texts[j])| == e.dim
    {
      if |out[i]| != e.dim {
        return Err("EmbedderInvalid");
      }
    }
    return Ok(out);
  }

  /** The positions of the records with a text in column `c`, and those texts. */
  method Gather(c: Column, records: seq<Record>) returns (idx: seq<nat>, texts: seq<string>)
    ensures |idx| == |texts|
    ensures forall j :: 0 <= j < |idx| ==>
      idx[j] < |records| && HasText(Get(records[idx[j]], c)) && texts[j] == Get(records[idx[j]], c).text
    ensures forall j, k :: 0 <= j < k < |idx| ==> idx[j] < idx[k]
    ensures forall h :: 0 <= h < |records| && HasText(Get(records[h], c)) ==> h in idx
  {
    idx, texts := [], [];
    for i := 0 to |records|
      invariant |idx| == |texts|
      invariant forall j :: 0 <= j < |idx| ==>
        idx[j] < i && HasText(Get(records[idx[j]], c)) && texts[j] == Get(records[idx[j]], c).text
      invariant forall j, k :: 0 <= j < k < |idx| ==> idx[j] < idx[k]
      invariant forall h :: 0 <= h < i && HasText(Get(records[h], c)) ==> h in idx
    {
      if HasText(Get(records[i], c)) {
        idx, texts := idx + [i], texts + [Get(records[i], c).text];
      }
    }
  }

  /** Put `values[j]` at position `idx[j]` and null everywhere else. */
  method Scatter<V>(n: nat, idx: seq<nat>, values: seq<V>) returns (column: seq<Option<V>>)
    requires |idx| == |values| && forall j :: 0 <= j < |idx| ==> idx[j] < n
    requires forall j, k :: 0 <= j < k < |idx| ==> idx[j] < idx[k]
    ensures |column| == n
    ensures forall h :: 0 <= h < n && h !in idx ==> column[h] == None
    ensures forall j :: 0 <= j < |idx| ==> column[idx[j]] == Some(values[j])
  {
    var cells := new Option<V>[n](_ => None);
    for j := 0 to |idx|
      invariant forall h :: 0 <= h < n && h !in idx ==> cells[h] == None
      invariant forall k :: 0 <= k < j ==> cells[idx[k]] == Some(values[k])
    {
      cells[idx[j]] := Some(values[j]);
    }
    return cells[..];
  }

  /** Gather the non-empty texts of one column, embed them in one call, and scatter
      vectors and tokens back to the positions they came from. */
  method EmbedColumn(e: Embedder, c: Column, records: seq<Record>)
    returns (r: Result<(seq<Option<Vec>>, seq<Option<string>>)>)
    ensures r.Ok? <==> forall i :: 0 <= i < |records| ==> EmbeddableAt(e, records[i], c)
    ensures r.Ok? ==> |r.value.0| == |records| == |r.value.1|
    ensures r.Ok? ==> forall i :: 0 <= i < |records| ==>
      r.value.0[i] == VecAt(e, records[i], c) && r.value.1[i] == TokAt(e, records[i], c)
  {
    var idx, texts := Gather(c, records);
    var embedded := Embed(e, texts);
    if embedded.Err? {
      var j :| 0 <= j < |texts| && |e.vec(texts[j])| != e.dim;
      assert !EmbeddableAt(e, records[idx[j]], c);
      return Err(embedded.reason);
    }
    var toks := seq(|texts|, j requires 0 <= j < |texts| => e.tok(texts[j]));
    var cv := Scatter(|records|, idx, embedded.value);
    var ct := Scatter(|records|, idx, toks);
    forall i | 0 <= i < |records|
      ensures cv[i] == VecAt(e, records[i], c) && ct[i] == TokAt(e, records[i], c)
      ensures EmbeddableAt(e, records[i], c)
    {
      if HasText(Get(records[i], c)) {
        var h :| 0 <= h < |idx| && idx[h] == i;
      } else if i in idx {
        assert false;
      }
    }
    return Ok((cv, ct));
  }

  /** `embed_records`, transposed to one index for each record: whatever batch a
      record is embedded in, it gets the search columns it should have. */
  method EmbedRecords(emb: Option<Embedder>, spec: TableSpec, records: seq<Record>) returns (r: Result<seq<Index>>)
    ensures r.Ok? <==> forall i :: 0 <= i < |records| ==> Embeddable(emb, spec, records[i])
    ensures r.Ok? ==> |r.value| == |records|
    ensures r.Ok? ==> forall i :: 0 <= i < |records| ==> r.value[i] == IndexOf(emb, spec, records[i])
  {
    if emb.None? {
      return Ok(seq(|records|, i => Index(map[], map[])));
    }
    var e := emb.value;
    var vecs: map<Column, seq<Option<Vec>>>, toks: map<Column, seq<Option<string>>> := map[], map[];
    for n := 0 to |spec.searchable|
      invariant vecs.Keys == toks.Keys == set c | c in spec.searchable[..n]
      invariant forall c :: c in vecs ==> |vecs[c]| == |records| == |toks[c]|
      invariant forall c, i :: c in vecs && 0 <= i < |records| ==>
        vecs[c][i] == VecAt(e, records[i], c) && toks[c][i] == TokAt(e, records[i], c) && EmbeddableAt(e, records[i], c)
    {
      var c := spec.searchable[n];
      var column := EmbedColumn(e, c, records);
      if column.Err? {
        var i :| 0 <= i < |records| && !EmbeddableAt(e, records[i], c);
        assert !Embeddable(emb, spec, records[i]);
        return Err(column.reason);
      }
      vecs, toks := vecs[c := column.value.0], toks[c := column.value.1];
      assert spec.searchable[..n + 1] == spec.searchable[..n] + [c];
    }
    assert spec.searchable[..|spec.searchable|] == spec.searchable;
    forall i | 0 <= i < |records|
      ensures Embeddable(emb, spec, records[i])
    {
      forall c | c in spec.searchable
        ensures EmbeddableAt(e, records[i], c)
      {
        assert c in vecs;
      }
    }
    var out := seq(|records|, i requires 0 <= i < |records| =>
      Index(map c | c in vecs :: vecs[c][i], map c | c in toks :: toks[c][i]));
    return Ok(out);
  }
}
