/**
 The workspace index: overlapping windows of the Markdown documents, kept in a chunk table and a full-text table
 that are updated incrementally. The content hash is injective; embedding calls may fail, and need not give the
 same values twice, so a vector is tagged with the text and model it was asked for.
 */
module SearchIndex {
  import opened Wrappers
  import Ranking = SearchRanking
  import Text

  const WINDOW_LINES: nat := 32
  const WINDOW_STEP: nat := 24
  const MAX_CHUNK: nat := 6000

  /** A document by its lines. */
  datatype Document = Document(path: string, lines: seq<string>)

  datatype Sha256 = Sha256(text: string)

  datatype Vector = Vector(text: string, model: string, values: seq<real>)

  datatype Row = Row(path: string, line: nat, hash: Sha256, body: string, model: string, vector: Option<Vector>)

  datatype SearchRow = SearchRow(id: string, body: string)

  /** One window of one document; `line` counts from one. */
  datatype Piece = Piece(path: string, line: nat, text: string)

  // ---------------------------------------------------------------- windows

  /** Python's `lines[from:to]`, clamped at the end. */
  function Slice(lines: seq<string>, from: nat, to: nat): seq<string>
    requires from <= to
  {
    lines[if from < |lines| then from else |lines|..if to < |lines| then to else |lines|]
  }

  function Cut(s: string): string { if |s| > MAX_CHUNK then s[..MAX_CHUNK] else s }

  function WindowText(lines: seq<string>, offset: nat): string {
    Cut(Text.Join(Slice(lines, offset, offset + WINDOW_LINES)))
  }

  function PiecesFrom(d: Document, offset: nat): seq<Piece>
    decreases |d.lines| - offset
  {
    if offset >= |d.lines| then []
    else [Piece(d.path, offset + 1, WindowText(d.lines, offset))] + PiecesFrom(d, offset + WINDOW_STEP)
  }

  function Pieces(docs: seq<Document>): seq<Piece> {
    if docs == [] then [] else Pieces(docs[..|docs| - 1]) + PiecesFrom(docs[|docs| - 1], 0)
  }

  function Identifier(path: string, line: nat): string { path + ":" + Text.Decimal(line) }

  function IdOf(p: Piece): string { Identifier(p.path, p.line) }

  /** Windows overlap by eight lines, so any nine consecutive lines are together in one window before the cut. */
  lemma NineLinesShareAWindow(d: Document, first: nat, count: nat)
    requires count <= 9 && first + count <= |d.lines| && first < |d.lines|
    ensures var offset := WINDOW_STEP * (first / WINDOW_STEP);
      && offset < |d.lines| && offset <= first
      && Slice(d.lines, offset, offset + WINDOW_LINES)[first - offset..first - offset + count] == d.lines[first..first + count]
      && Piece(d.path, offset + 1, WindowText(d.lines, offset)) in PiecesFrom(d, 0)
  {
    hide WindowText, PiecesFrom;
    var offset := WINDOW_STEP * (first / WINDOW_STEP);
    WindowStart(first);
    PieceAt(d, 0, offset);
    var window := Slice(d.lines, offset, offset + WINDOW_LINES);
    assert first - offset + count <= |window|;
    assert forall k :: first <= k < first + count ==> d.lines[k] == window[k - offset];
    assert window[first - offset..first - offset + count] == d.lines[first..first + count];
  }

  lemma WindowStart(first: nat)
    ensures var offset := WINDOW_STEP * (first / WINDOW_STEP);
      offset <= first < offset + WINDOW_STEP && offset % WINDOW_STEP == 0
  {
  }

  lemma {:induction false} PieceAt(d: Document, start: nat, offset: nat)
    requires start <= offset < |d.lines| && (offset - start) % WINDOW_STEP == 0
    ensures Piece(d.path, offset + 1, WindowText(d.lines, offset)) in PiecesFrom(d, start)
    decreases offset - start
  {
    if start < offset {
      PieceAt(d, start + WINDOW_STEP, offset);
    }
  }

  // ---------------------------------------------------------------- identifiers

  /** An identifier names one path and one line: the decimal after the last colon contains no colon. */
  lemma IdentifierIsInjective(path: string, line: nat, path': string, line': nat)
    ensures Identifier(path, line) == Identifier(path', line') ==> path == path' && line == line'
  {
    var s, s' := Identifier(path, line), Identifier(path', line');
    var d, d' := Text.Decimal(line), Text.Decimal(line');
    if s == s' {
      NoLongerDecimal(path, d, path', d');
      NoLongerDecimal(path', d', path, d);
      assert path == s[..|path|] && path' == s[..|path'|];
      assert d == s[|path| + 1..] && d' == s[|path'| + 1..];
      Text.DecimalRoundTrip(line);
      Text.DecimalRoundTrip(line');
    }
  }

  lemma NoLongerDecimal(p: string, d: string, p': string, d': string)
    requires p + ":" + d == p' + ":" + d' && Text.All(d', Text.IsDigit)
    ensures |d'| <= |d|
  {
    var s := p + ":" + d;
    assert s[|p|] == ':';
    assert forall j :: |p'| < j < |s| ==> s[j] == d'[j - |p'| - 1] && Text.IsDigit(s[j]);
  }

  predicate DistinctPaths(docs: seq<Document>) {
    forall i, j :: 0 <= i < j < |docs| ==> docs[i].path != docs[j].path
  }

  predicate DistinctIds(pieces: seq<Piece>) {
    forall i, j :: 0 <= i < j < |pieces| ==> IdOf(pieces[i]) != IdOf(pieces[j])
  }

  lemma {:induction false} PiecesOfOne(d: Document, offset: nat)
    ensures forall p :: p in PiecesFrom(d, offset) ==> p.path == d.path && p.line > offset
    ensures DistinctIds(PiecesFrom(d, offset))
    decreases |d.lines| - offset
  {
    if offset < |d.lines| {
      hide Identifier;
      PiecesOfOne(d, offset + WINDOW_STEP);
      var rest := PiecesFrom(d, offset + WINDOW_STEP);
      forall i | 0 <= i < |rest|
        ensures IdOf(rest[i]) != Identifier(d.path, offset + 1)
      {
        assert rest[i] in rest;
        IdentifierIsInjective(rest[i].path, rest[i].line, d.path, offset + 1);
      }
    }
  }

  /** No two windows of the documents share an identifier. */
  lemma {:induction false} PiecesAreDistinct(docs: seq<Document>)
    requires DistinctPaths(docs)
    ensures DistinctIds(Pieces(docs))
    ensures forall p :: p in Pieces(docs) ==> exists d :: d in docs && p.path == d.path
  {
    if docs != [] {
      hide Identifier, PiecesFrom;
      var n := |docs| - 1;
      PiecesAreDistinct(docs[..n]);
      PiecesOfOne(docs[n], 0);
      var before, last := Pieces(docs[..n]), PiecesFrom(docs[n], 0);
      forall p, q | p in before && q in last
        ensures IdOf(p) != IdOf(q)
      {
        var d :| d in docs[..n] && p.path == d.path;
        var i :| 0 <= i < n && docs[i] == d;
        IdentifierIsInjective(p.path, p.line, q.path, q.line);
      }
      DistinctAppend(before, last);
      assert docs[n] in docs;
    }
  }

  lemma DistinctAppend(a: seq<Piece>, b: seq<Piece>)
    requires DistinctIds(a) && DistinctIds(b) && forall p, q :: p in a && q in b ==> IdOf(p) != IdOf(q)
    ensures DistinctIds(a + b)
  {
  }

  // ---------------------------------------------------------------- the two tables

  predicate RowOk(id: string, r: Row) {
    && id == Identifier(r.path, r.line) && r.hash == Sha256(r.body)
    && match r.vector
       case None => r.model == ""
       case Some(v) => r.model != "" && v.text == r.body && v.model == r.model
  }

  ghost predicate DistinctRows(search: seq<SearchRow>) {
    forall i, j :: 0 <= i < j < |search| ==> search[i].id != search[j].id
  }

  ghost predicate SearchAgrees(chunks: map<string, Row>, search: seq<SearchRow>) {
    && DistinctRows(search)
    && (forall r :: r in search ==> r.id in chunks && r.body == chunks[r.id].body)
    && (forall id :: id in chunks ==> SearchRow(id, chunks[id].body) in search)
  }

  ghost predicate Consistent(chunks: map<string, Row>, search: seq<SearchRow>) {
    (forall id :: id in chunks ==> RowOk(id, chunks[id])) && SearchAgrees(chunks, search)
  }

  predicate Shows(r: Row, p: Piece, model: string) {
    r.path == p.path && r.line == p.line && r.body == p.text && r.model == model
  }

  /** Both tables hold exactly the windows of the documents, each with a vector for its own text and model. */
  ghost predicate IsIndexOf(chunks: map<string, Row>, search: seq<SearchRow>, docs: seq<Document>, model: string) {
    && Consistent(chunks, search)
    && (forall p :: p in Pieces(docs) ==> IdOf(p) in chunks && Shows(chunks[IdOf(p)], p, model))
    && (forall id :: id in chunks ==> exists p :: p in Pieces(docs) && IdOf(p) == id)
  }

  /** So an incremental index and a rebuild agree in both tables, up to the values of the vectors. */
  lemma IndexIsDetermined(chunks: map<string, Row>, search: seq<SearchRow>, chunks': map<string, Row>,
                          search': seq<SearchRow>, docs: seq<Document>, model: string)
    requires IsIndexOf(chunks, search, docs, model) && IsIndexOf(chunks', search', docs, model)
    ensures chunks.Keys == chunks'.Keys
    ensures forall id :: id in chunks ==>
              var r, r' := chunks[id], chunks'[id];
              && r.path == r'.path && r.line == r'.line && r.hash == r'.hash && r.body == r'.body && r.model == r'.model
              && (r.vector.Some? <==> r'.vector.Some?)
              && (r.vector.Some? ==> r.vector.value.text == r'.vector.value.text
                                     && r.vector.value.model == r'.vector.value.model)
    ensures (set r | r in search) == (set r | r in search') && |search| == |search'|
  {
    hide Pieces, Identifier;
    assert chunks.Keys == chunks'.Keys;
    forall id | id in chunks
      ensures Shows(chunks'[id], Piece(chunks[id].path, chunks[id].line, chunks[id].body), chunks[id].model)
    {
      var p :| p in Pieces(docs) && IdOf(p) == id;
    }
    forall r
      ensures r in search <==> r in search'
    {
    }
    DistinctSize(search);
    DistinctSize(search');
  }

  lemma {:induction false} DistinctSize(search: seq<SearchRow>)
    requires DistinctRows(search)
    ensures |set r | r in search| == |search|
  {
    if search != [] {
      var n := |search| - 1;
      DistinctSize(search[..n]);
      assert (set r | r in search) == (set r | r in search[..n]) + {search[n]};
      assert search[n] !in search[..n];
    }
  }

  // ---------------------------------------------------------------- one window at a time

  /** `DELETE FROM search WHERE id=?`. */
  function DeleteId(search: seq<SearchRow>, id: string): seq<SearchRow> {
    if search == [] then []
    else DeleteId(search[..|search| - 1], id)
         + if search[|search| - 1].id == id then [] else [search[|search| - 1]]
  }

  lemma {:induction false} DeleteIdMembers(search: seq<SearchRow>, id: string)
    ensures forall r :: r in DeleteId(search, id) <==> r in search && r.id != id
  {
    if search != [] {
      var n := |search| - 1;
      DeleteIdMembers(search[..n], id);
      assert forall r :: r in search <==> r in search[..n] || r == search[n];
    }
  }

  lemma {:induction false} DeleteIdDistinct(search: seq<SearchRow>, id: string)
    requires DistinctRows(search)
    ensures DistinctRows(DeleteId(search, id))
  {
    if search != [] {
      var n := |search| - 1;
      DeleteIdDistinct(search[..n], id);
      DeleteIdMembers(search[..n], id);
      assert forall r :: r in search[..n] ==> r.id != search[n].id;
    }
  }

  lemma ReplaceKeepsAgreement(chunks: map<string, Row>, search: seq<SearchRow>, id: string, row: Row)
    requires SearchAgrees(chunks, search)
    ensures SearchAgrees(chunks[id := row], DeleteId(search, id) + [SearchRow(id, row.body)])
  {
    hide DeleteId;
    DeleteIdMembers(search, id);
    DeleteIdDistinct(search, id);
    var t := DeleteId(search, id) + [SearchRow(id, row.body)];
    assert t[|t| - 1] == SearchRow(id, row.body);
    assert forall r :: r in t <==> r in DeleteId(search, id) || r == SearchRow(id, row.body);
  }

  lemma DeleteKeepsAgreement(chunks: map<string, Row>, search: seq<SearchRow>, id: string)
    requires SearchAgrees(chunks, search)
    ensures SearchAgrees(chunks - {id}, DeleteId(search, id))
  {
    hide DeleteId;
    DeleteIdMembers(search, id);
    DeleteIdDistinct(search, id);
  }

  /** The row was written for this very text and model, so nothing is embedded again. */
  predicate UpToDate(chunks: map<string, Row>, p: Piece, model: string) {
    IdOf(p) in chunks && chunks[IdOf(p)].hash == Sha256(p.text) && chunks[IdOf(p)].model == model
  }

  lemma UpToDateShows(chunks: map<string, Row>, p: Piece, model: string)
    requires UpToDate(chunks, p, model) && RowOk(IdOf(p), chunks[IdOf(p)])
    ensures Shows(chunks[IdOf(p)], p, model)
  {
    var r := chunks[IdOf(p)];
    IdentifierIsInjective(r.path, r.line, p.path, p.line);
  }

  /** The working copy of a transaction, and how often the embedding service was asked. */
  datatype Work = Work(chunks: map<string, Row>, search: seq<SearchRow>, calls: nat)

  /** What one refreshed window changes. */
  ghost predicate Refreshed(w: Work, p: Piece, model: string, t: Work) {
    && Consistent(t.chunks, t.search)
    && t.chunks.Keys == w.chunks.Keys + {IdOf(p)}
    && Shows(t.chunks[IdOf(p)], p, model)
    && (forall id :: id in w.chunks && id != IdOf(p) ==> t.chunks[id] == w.chunks[id])
    && (UpToDate(w.chunks, p, model) ==> t == w)
    && t.calls == w.calls + if model == "" || UpToDate(w.chunks, p, model) then 0 else 1
  }

  method Refresh(w: Work, p: Piece, model: string, embedding: nat -> Option<seq<real>>)
    returns (r: Option<Work>, wrote: bool)
    requires Consistent(w.chunks, w.search)
    ensures r.None? <==> model != "" && !UpToDate(w.chunks, p, model) && embedding(w.calls).None?
    ensures r.Some? ==> Refreshed(w, p, model, r.value) && (wrote <==> !UpToDate(w.chunks, p, model))
  {
    hide DeleteId, Identifier, SearchAgrees;
    var id := IdOf(p);
    if id in w.chunks && w.chunks[id].hash == Sha256(p.text) && w.chunks[id].model == model {
      UpToDateShows(w.chunks, p, model);
      return Some(w), false;
    }
    var vector: Option<Vector> := None;
    var calls := w.calls;
    if model != "" {
      var values := embedding(calls);
      calls := calls + 1;
      if values.None? {
        return None, false;
      }
      vector := Some(Vector(p.text, model, values.value));
    }
    var row := Row(p.path, p.line, Sha256(p.text), p.text, model, vector);
    ReplaceKeepsAgreement(w.chunks, w.search, id, row);
    return Some(Work(w.chunks[id := row], DeleteId(w.search, id) + [SearchRow(id, p.text)], calls)), true;
  }

  // ---------------------------------------------------------------- the whole run

  /** After the windows `done`, everything else is still as it was. */
  ghost predicate Progress(before: Work, done: seq<Piece>, model: string, w: Work) {
    && Consistent(w.chunks, w.search)
    && (forall p :: p in done ==> IdOf(p) in w.chunks && Shows(w.chunks[IdOf(p)], p, model))
    && (forall id :: id in w.chunks <==> id in before.chunks || id in Ids(done))
    && (forall id :: id in before.chunks && id !in Ids(done) ==> w.chunks[id] == before.chunks[id])
    && (forall p :: p in done && UpToDate(before.chunks, p, model) ==> w.chunks[IdOf(p)] == before.chunks[IdOf(p)])
  }

  function Ids(pieces: seq<Piece>): set<string> { set p | p in pieces :: IdOf(p) }

  lemma ProgressNext(before: Work, done: seq<Piece>, model: string, w: Work, p: Piece, t: Work)
    requires Progress(before, done, model, w) && Refreshed(w, p, model, t)
    requires forall q :: q in done ==> IdOf(q) != IdOf(p)
    ensures Progress(before, done + [p], model, t)
  {
    hide Identifier, Consistent;
    assert forall q :: q in done + [p] <==> q in done || q == p;
    assert Ids(done + [p]) == Ids(done) + {IdOf(p)};
  }

  /** The windows that an index run has to write again. */
  function Stale(chunks: map<string, Row>, pieces: seq<Piece>, model: string): nat {
    if pieces == [] then 0
    else
      var n := |pieces| - 1;
      Stale(chunks, pieces[..n], model) + if UpToDate(chunks, pieces[n], model) then 0 else 1
  }

  /** A run under way: the working copy, the identifiers seen, and how many windows were written. */
  datatype Pass = Pass(work: Work, current: set<string>, changed: nat)

  /** The embedding service was asked once for every window written, and always answered. */
  ghost predicate PassOk(before: Work, done: seq<Piece>, model: string, embedding: nat -> Option<seq<real>>, pass: Pass) {
    && Progress(before, done, model, pass.work)
    && pass.current == Ids(done) && pass.changed == Stale(before.chunks, done, model)
    && pass.work.calls == (if model == "" then 0 else pass.changed)
    && Answers(embedding, pass.work.calls)
  }

  ghost predicate Answers(embedding: nat -> Option<seq<real>>, calls: nat) {
    forall k: nat :: k < calls ==> embedding(k).Some?
  }

  lemma PassNext(before: Work, done: seq<Piece>, model: string, embedding: nat -> Option<seq<real>>, pass: Pass,
                 p: Piece, t: Work, wrote: bool)
    requires PassOk(before, done, model, embedding, pass) && Refreshed(pass.work, p, model, t)
    requires wrote <==> !UpToDate(pass.work.chunks, p, model)
    requires wrote && model != "" ==> embedding(pass.work.calls).Some?
    requires DistinctIds(done + [p])
    ensures PassOk(before, done + [p], model, embedding,
                   Pass(t, pass.current + {IdOf(p)}, pass.changed + if wrote then 1 else 0))
  {
    hide Identifier, Consistent, Progress, DistinctIds, Shows;
    LastIsNew(done, p);
    ProgressNext(before, done, model, pass.work, p, t);
    StaleNext(before, done, model, pass.work, p);
    assert Ids(done + [p]) == Ids(done) + {IdOf(p)};
  }

  /** A window that was not reached yet is as stale as it was at the start. */
  lemma StaleNext(before: Work, done: seq<Piece>, model: string, w: Work, p: Piece)
    requires Progress(before, done, model, w)
    requires forall q :: q in done ==> IdOf(q) != IdOf(p)
    ensures UpToDate(w.chunks, p, model) <==> UpToDate(before.chunks, p, model)
    ensures Stale(before.chunks, done + [p], model)
            == Stale(before.chunks, done, model) + if UpToDate(w.chunks, p, model) then 0 else 1
  {
    hide Identifier, Consistent, Shows;
    assert (done + [p])[..|done|] == done;
    assert IdOf(p) !in Ids(done);
  }

  lemma {:induction false} StalePrefix(chunks: map<string, Row>, some: seq<Piece>, all: seq<Piece>, model: string)
    requires some <= all
    ensures Stale(chunks, some, model) <= Stale(chunks, all, model)
  {
    hide UpToDate;
    if |some| < |all| {
      StalePrefix(chunks, some, all[..|all| - 1], model);
    } else {
      assert some == all;
    }
  }

  lemma UnansweredIsNeeded(before: Work, done: seq<Piece>, model: string, embedding: nat -> Option<seq<real>>,
                           pass: Pass, p: Piece)
    requires PassOk(before, done, model, embedding, pass) && model != "" && DistinctIds(done + [p])
    requires !UpToDate(pass.work.chunks, p, model) && embedding(pass.work.calls).None?
    ensures pass.work.calls < Stale(before.chunks, done + [p], model)
  {
    hide Identifier, Consistent, Progress, DistinctIds, Shows;
    LastIsNew(done, p);
    StaleNext(before, done, model, pass.work, p);
  }

  lemma LastIsNew(done: seq<Piece>, p: Piece)
    requires DistinctIds(done + [p])
    ensures forall q :: q in done ==> IdOf(q) != IdOf(p)
  {
    hide Identifier;
    var all := done + [p];
    forall q | q in done
      ensures IdOf(q) != IdOf(p)
    {
      var i :| 0 <= i < |done| && done[i] == q;
      assert all[i] == q && all[|done|] == p;
    }
  }

  lemma DistinctPrefix(some: seq<Piece>, all: seq<Piece>)
    requires DistinctIds(all) && some <= all
    ensures DistinctIds(some)
  {
    hide Identifier;
  }

  lemma {:induction false} PiecesPrefix(docs: seq<Document>, k: nat)
    requires k <= |docs|
    ensures Pieces(docs[..k]) <= Pieces(docs)
    decreases |docs| - k
  {
    if k == |docs| {
      assert docs[..k] == docs;
    } else {
      PiecesPrefix(docs, k + 1);
      assert docs[..k + 1][..k] == docs[..k];
    }
  }

  lemma EmptyIsConsistent()
    ensures Consistent(map[], [])
  {
    var none: seq<SearchRow> := [];
    assert forall r :: r !in none;
  }

  lemma NothingDone(before: Work, model: string)
    requires Consistent(before.chunks, before.search)
    ensures forall embedding :: before.calls == 0 ==> PassOk(before, [], model, embedding, Pass(before, {}, 0))
  {
    hide Consistent;
  }

  lemma PassIsConsistent(before: Work, done: seq<Piece>, model: string, embedding: nat -> Option<seq<real>>, pass: Pass)
    requires PassOk(before, done, model, embedding, pass)
    ensures Consistent(pass.work.chunks, pass.work.search)
  {
  }

  lemma NextPiece(d: Document, offset: nat)
    requires offset < |d.lines|
    ensures PiecesFrom(d, offset)
            == [Piece(d.path, offset + 1, WindowText(d.lines, offset))] + PiecesFrom(d, offset + WINDOW_STEP)
  {
  }

  lemma NoPieces(d: Document, offset: nat)
    requires offset >= |d.lines|
    ensures PiecesFrom(d, offset) == []
  {
  }

  lemma DeletionKeepsConsistent(chunks: map<string, Row>, search: seq<SearchRow>, id: string)
    requires Consistent(chunks, search)
    ensures Consistent(chunks - {id}, DeleteId(search, id))
  {
    hide DeleteId, Identifier, SearchAgrees;
    DeleteKeepsAgreement(chunks, search, id);
  }

  /** Rows of windows that no longer exist leave both tables. */
  method RemoveStale(w: Work, current: set<string>) returns (t: Work, removed: nat)
    requires Consistent(w.chunks, w.search)
    ensures Consistent(t.chunks, t.search) && t.chunks.Keys == w.chunks.Keys * current
    ensures forall id :: id in t.chunks ==> t.chunks[id] == w.chunks[id]
    ensures removed == |w.chunks.Keys - current|
  {
    hide Consistent, DeleteId;
    t, removed := w, 0;
    var left := w.chunks.Keys;
    ghost var gone: set<string> := {};
    while left != {}
      invariant Consistent(t.chunks, t.search) && left <= w.chunks.Keys
      invariant forall id :: id in t.chunks <==> id in w.chunks && (id in current || id in left)
      invariant forall id :: id in t.chunks ==> t.chunks[id] == w.chunks[id]
      invariant forall id :: id in gone <==> id in w.chunks && id !in left && id !in current
      invariant removed == |gone|
      decreases |left|
    {
      var id :| id in left;
      if id !in current {
        DeletionKeepsConsistent(t.chunks, t.search, id);
        t := t.(chunks := t.chunks - {id}, search := DeleteId(t.search, id));
        removed := removed + 1;
        gone := gone + {id};
      }
      left := left - {id};
    }
    assert gone == w.chunks.Keys - current;
    assert t.chunks.Keys == w.chunks.Keys * current;
  }

  lemma Finish(before: Work, docs: seq<Document>, model: string, embedding: nat -> Option<seq<real>>, pass: Pass, t: Work)
    requires PassOk(before, Pieces(docs), model, embedding, pass)
    requires Consistent(t.chunks, t.search) && t.chunks.Keys == pass.work.chunks.Keys * pass.current
    requires forall id :: id in t.chunks ==> t.chunks[id] == pass.work.chunks[id]
    ensures IsIndexOf(t.chunks, t.search, docs, model)
    ensures t.chunks.Keys == pass.current && pass.changed == Stale(before.chunks, Pieces(docs), model)
    ensures model != "" ==> Answers(embedding, Stale(before.chunks, Pieces(docs), model))
    ensures pass.work.chunks.Keys - pass.current == before.chunks.Keys - t.chunks.Keys
    ensures forall p :: p in Pieces(docs) && UpToDate(before.chunks, p, model) ==>
              IdOf(p) in t.chunks && t.chunks[IdOf(p)] == before.chunks[IdOf(p)]
  {
    hide Identifier, Consistent, Pieces, Stale;
    forall p | p in Pieces(docs)
      ensures IdOf(p) in t.chunks
    {
      assert IdOf(p) in Ids(Pieces(docs));
    }
  }

  datatype Report = Report(chunks: nat, updated: nat, removed: nat)

  class KnowledgeIndex {
    var chunks: map<string, Row>
    var search: seq<SearchRow>

    constructor ()
      ensures Consistent(chunks, search)
    {
      chunks, search := map[], [];
      EmptyIsConsistent();
    }

    /**
     One index run inside one transaction. `embedding(k)` answers the k-th request; one is made for every stale
     window. The run fails exactly when one of them is not answered, and then nothing has changed.
     */
    method Index(docs: seq<Document>, model: string, embedding: nat -> Option<seq<real>>) returns (r: Option<Report>)
      requires Consistent(chunks, search) && DistinctPaths(docs)
      modifies this
      ensures r.None? ==> chunks == old(chunks) && search == old(search)
      ensures r.Some? <==> model == "" || Answers(embedding, Stale(old(chunks), Pieces(docs), model))
      ensures r.Some? ==> IsIndexOf(chunks, search, docs, model)
      ensures r.Some? ==> r.value == Report(|chunks|, Stale(old(chunks), Pieces(docs), model),
                                            |old(chunks).Keys - chunks.Keys|)
      ensures r.Some? ==> forall p :: p in Pieces(docs) && UpToDate(old(chunks), p, model) ==>
                            IdOf(p) in chunks && chunks[IdOf(p)] == old(chunks)[IdOf(p)]
    {
      hide Identifier, Consistent, PassOk, PiecesFrom, DistinctIds, Stale, UpToDate, IsIndexOf;
      PiecesAreDistinct(docs);
      ghost var before := Work(chunks, search, 0);
      var pass := Pass(Work(chunks, search, 0), {}, 0);
      NothingDone(before, model);
      for d := 0 to |docs|
        invariant chunks == old(chunks) && search == old(search)
        invariant PassOk(before, Pieces(docs[..d]), model, embedding, pass)
      {
        PiecesPrefix(docs, d + 1);
        assert docs[..d + 1][..d] == docs[..d];
        DistinctPrefix(Pieces(docs[..d + 1]), Pieces(docs));
        var next := IndexDocument(docs[d], pass, model, embedding, before, Pieces(docs[..d]));
        if next.None? {
          StalePrefix(chunks, Pieces(docs[..d + 1]), Pieces(docs), model);
          return None;
        }
        pass := next.value;
      }
      assert docs[..|docs|] == docs;
      PassIsConsistent(before, Pieces(docs), model, embedding, pass);
      var work, removed := RemoveStale(pass.work, pass.current);
      Finish(before, docs, model, embedding, pass, work);
      chunks, search := work.chunks, work.search;
      return Some(Report(|pass.current|, pass.changed, removed));
    }

    /** The windows of one document, one after the other. */
    static method IndexDocument(doc: Document, start: Pass, model: string, embedding: nat -> Option<seq<real>>,
                                ghost before: Work, ghost done: seq<Piece>) returns (r: Option<Pass>)
      requires PassOk(before, done, model, embedding, start) && DistinctIds(done + PiecesFrom(doc, 0))
      ensures r.None? ==> model != "" && !Answers(embedding, Stale(before.chunks, done + PiecesFrom(doc, 0), model))
      ensures r.Some? ==> PassOk(before, done + PiecesFrom(doc, 0), model, embedding, r.value)
    {
      hide Identifier, Consistent, PassOk, Refreshed, PiecesFrom, DistinctIds, UpToDate;
      var pass, offset := start, 0;
      ghost var seen := done;
      while offset < |doc.lines|
        invariant seen + PiecesFrom(doc, offset) == done + PiecesFrom(doc, 0)
        invariant PassOk(before, seen, model, embedding, pass)
        decreases |doc.lines| - offset
      {
        var piece := Piece(doc.path, offset + 1, WindowText(doc.lines, offset));
        NextPiece(doc, offset);
        ghost var rest := PiecesFrom(doc, offset + WINDOW_STEP);
        assert seen + ([piece] + rest) == (seen + [piece]) + rest;
        DistinctPrefix(seen + [piece], done + PiecesFrom(doc, 0));
        PassIsConsistent(before, seen, model, embedding, pass);
        var next, wrote := Refresh(pass.work, piece, model, embedding);
        if next.None? {
          UnansweredIsNeeded(before, seen, model, embedding, pass, piece);
          StalePrefix(before.chunks, seen + [piece], done + PiecesFrom(doc, 0), model);
          return None;
        }
        PassNext(before, seen, model, embedding, pass, piece, next.value, wrote);
        pass := Pass(next.value, pass.current + {IdOf(piece)}, pass.changed + if wrote then 1 else 0);
        seen, offset := seen + [piece], offset + WINDOW_STEP;
      }
      NoPieces(doc, offset);
      assert seen + [] == seen;
      return Some(pass);
    }

    /**
     `hits` are the best full-text matches and `neighbours` the nearest vectors, however they were computed; the
     merged ranking decides. The files are read afresh, and an excerpt is returned only while the file still says
     exactly this and is neither private nor retired.
     */
    method Search(hasWords: bool, hits: seq<string>, neighbours: seq<string>, files: map<string, seq<string>>,
                  hidden: seq<string> -> bool, limit: nat)
      returns (results: seq<Result>)
      requires Consistent(chunks, search) && Ranking.IsRanking(hits) && Ranking.IsRanking(neighbours)
      requires forall id :: id in hits ==> exists r :: r in search && r.id == id
      requires forall id :: id in neighbours ==> id in chunks
      ensures forall id :: id in hits || id in neighbours ==> id in chunks
      ensures forall id :: id in Ranking.Ranked(hits, neighbours) ==> id in chunks
      ensures results == if !hasWords then [] else
                Limited(Fresh(chunks, files, hidden, Worths(hits, neighbours), Ranking.Ranked(hits, neighbours)), limit)
    {
      hide Identifier, WindowText, Ranking.Ranked, Ranking.Worth, RowOk, Fresh, Limited;
      Ranking.RankedIsRight(hits, neighbours);
      HitsAreChunks(chunks, search, hits);
      if !hasWords {
        return [];
      }
      var scored := Ranking.Score(hits, neighbours);
      results := Collect(Ranking.Ranked(hits, neighbours), scored, Worths(hits, neighbours), files, hidden, limit);
    }

    /** The results in the order of their scores, as far as they are still true. */
    method Collect(ranked: seq<string>, scored: map<string, real>, ghost worth: string -> real,
                   files: map<string, seq<string>>, hidden: seq<string> -> bool, limit: nat)
      returns (results: seq<Result>)
      requires Consistent(chunks, search) && forall id :: id in ranked ==> id in chunks
      requires forall id :: id in ranked ==> id in scored && scored[id] == worth(id)
      ensures results == Limited(Fresh(chunks, files, hidden, worth, ranked), limit)
    {
      hide Identifier, WindowText, Consistent;
      results := [];
      for i := 0 to |ranked|
        invariant results == Fresh(chunks, files, hidden, worth, ranked[..i])
        invariant limit > 0 ==> |results| < limit
      {
        assert ranked[..i + 1][..i] == ranked[..i];
        var row := chunks[ranked[i]];
        FreshExtends(chunks, files, hidden, worth, ranked, i + 1);
        RowHash(chunks, search, ranked[i]);
        if row.path !in files || hidden(files[row.path]) || row.line == 0 {
          continue;
        }
        if Sha256(WindowText(files[row.path], row.line - 1)) != row.hash {
          continue;
        }
        results := results + [Result(row.path, row.line, scored[ranked[i]], row.body)];
        if |results| == limit {
          assert results <= Fresh(chunks, files, hidden, worth, ranked);
          return results;
        }
      }
      assert ranked[..|ranked|] == ranked;
    }
  }

  lemma HitsAreChunks(chunks: map<string, Row>, search: seq<SearchRow>, hits: seq<string>)
    requires Consistent(chunks, search) && forall id :: id in hits ==> exists r :: r in search && r.id == id
    ensures forall id :: id in hits ==> id in chunks
  {
    hide RowOk;
  }

  lemma RowHash(chunks: map<string, Row>, search: seq<SearchRow>, id: string)
    requires Consistent(chunks, search) && id in chunks
    ensures chunks[id].hash == Sha256(chunks[id].body)
  {
  }

  // ---------------------------------------------------------------- what a search may return

  datatype Result = Result(path: string, line: nat, score: real, excerpt: string)

  function Worths(hits: seq<string>, neighbours: seq<string>): string -> real {
    id => Ranking.Worth(hits, neighbours, id)
  }

  /** The excerpt of a row, if the file still says exactly this. */
  predicate IsCurrent(row: Row, files: map<string, seq<string>>, hidden: seq<string> -> bool) {
    && row.path in files && !hidden(files[row.path]) && row.line > 0
    && row.body == WindowText(files[row.path], row.line - 1)
  }

  function Fresh(chunks: map<string, Row>, files: map<string, seq<string>>, hidden: seq<string> -> bool,
                 worth: string -> real, ranked: seq<string>): seq<Result>
    requires forall i :: 0 <= i < |ranked| ==> ranked[i] in chunks
  {
    if ranked == [] then []
    else
      var n := |ranked| - 1;
      var row := chunks[ranked[n]];
      Fresh(chunks, files, hidden, worth, ranked[..n])
      + if IsCurrent(row, files, hidden) then [Result(row.path, row.line, worth(ranked[n]), row.body)] else []
  }

  /** The loop stops when exactly `limit` results are there; the command line only passes limits from 1 to 20. */
  function Limited(results: seq<Result>, limit: nat): seq<Result> {
    if limit > 0 && |results| > limit then results[..limit] else results
  }

  lemma {:induction false} FreshExtends(chunks: map<string, Row>, files: map<string, seq<string>>,
                                        hidden: seq<string> -> bool, worth: string -> real, ranked: seq<string>, k: nat)
    requires forall i :: 0 <= i < |ranked| ==> ranked[i] in chunks
    requires k <= |ranked|
    ensures Fresh(chunks, files, hidden, worth, ranked[..k]) <= Fresh(chunks, files, hidden, worth, ranked)
    decreases |ranked| - k
  {
    if k == |ranked| {
      assert ranked[..k] == ranked;
    } else {
      FreshExtends(chunks, files, hidden, worth, ranked, k + 1);
      assert ranked[..k + 1][..k] == ranked[..k];
    }
  }

  /** Everything a search returns is in a file as it is now, under its own line, and was not to be hidden. */
  lemma {:induction false} OnlyCurrentExcerpts(chunks: map<string, Row>, files: map<string, seq<string>>,
                                               hidden: seq<string> -> bool, worth: string -> real,
                                               ranked: seq<string>, limit: nat, r: Result)
    requires forall i :: 0 <= i < |ranked| ==> ranked[i] in chunks
    requires r in Limited(Fresh(chunks, files, hidden, worth, ranked), limit)
    ensures r.path in files && !hidden(files[r.path]) && r.line > 0
    ensures r.excerpt == WindowText(files[r.path], r.line - 1)
    ensures exists id :: id in ranked && r.score == worth(id) && chunks[id].path == r.path && chunks[id].line == r.line
  {
    hide WindowText;
    var all := Fresh(chunks, files, hidden, worth, ranked);
    assert r in all;
    var n := |ranked| - 1;
    var row := chunks[ranked[n]];
    if !(IsCurrent(row, files, hidden) && r == Result(row.path, row.line, worth(ranked[n]), row.body)) {
      var before := Fresh(chunks, files, hidden, worth, ranked[..n]);
      assert r in before;
      assert Limited(before, 0) == before;
      OnlyCurrentExcerpts(chunks, files, hidden, worth, ranked[..n], 0, r);
    }
  }
}
