/** The execution rewrite that filters padding out above every scan. */
module PaddingInvisible {
  import opened Options
  import opened PaddedWriter

  /** The rows of the enclosing queries at hand, outermost first: what a correlated expression may refer to. */
  type Outer = seq<Row>

  type Predicate = (Outer, Row) -> bool

  /** A query over padded tables: scans, and any operator over inputs and subqueries. */
  datatype Query =
    | Scan(table: nat, projectsActivator: bool, filters: seq<Predicate>, limit: Option<nat>)
    | ActiveFilter(input: Query)
    | Operator(op: nat, inputs: seq<Query>, subqueries: seq<Query>)

  type Database = nat -> seq<Row>

  /** A subquery's rows, for each row of the operator that it is evaluated at. */
  type Correlated = imap<Row, seq<Row>>

  /** What an operator computes from the enclosing rows, its inputs' rows and its subqueries. */
  type Semantics = (nat, Outer, seq<seq<Row>>, seq<Correlated>) -> seq<Row>

  function Keep(rows: seq<Row>, p: Predicate, outer: Outer): seq<Row> {
    if rows == [] then []
    else
      var n := |rows| - 1;
      Keep(rows[..n], p, outer) + if p(outer, rows[n]) then [rows[n]] else []
  }

  function KeepAll(rows: seq<Row>, ps: seq<Predicate>, outer: Outer): seq<Row> {
    if ps == [] then rows else Keep(KeepAll(rows, ps[..|ps| - 1], outer), ps[|ps| - 1], outer)
  }

  function Take(rows: seq<Row>, limit: Option<nat>): seq<Row> {
    if limit.Some? && limit.value < |rows| then rows[..limit.value] else rows
  }

  predicate IsActive(outer: Outer, r: Row) {
    r.active
  }

  function Active(rows: seq<Row>): seq<Row> {
    Keep(rows, IsActive, [])
  }

  /** A scan applies its pushed-down filters and then its fetch limit. */
  function ScanRows(rows: seq<Row>, filters: seq<Predicate>, limit: Option<nat>, outer: Outer): seq<Row> {
    Take(KeepAll(rows, filters, outer), limit)
  }

  ghost function Eval(q: Query, db: Database, outer: Outer, sem: Semantics): seq<Row>
    decreases q, 1
  {
    match q
    case Scan(table, _, filters, limit) => ScanRows(db(table), filters, limit, outer)
    case ActiveFilter(input) => Active(Eval(input, db, outer, sem))
    case Operator(op, inputs, subqueries) =>
      sem(op, outer, EvalAll(inputs, db, outer, sem), EvalSubqueries(subqueries, db, outer, sem))
  }

  ghost function EvalAll(qs: seq<Query>, db: Database, outer: Outer, sem: Semantics): (r: seq<seq<Row>>)
    ensures |r| == |qs| && forall i | 0 <= i < |r| :: r[i] == Eval(qs[i], db, outer, sem)
    decreases qs, 0
  {
    seq(|qs|, i requires 0 <= i < |qs| => Eval(qs[i], db, outer, sem))
  }

  /** A subquery is evaluated anew at every row, which it may refer to. */
  ghost function EvalCorrelated(q: Query, db: Database, outer: Outer, sem: Semantics): (r: Correlated)
    ensures forall row :: row in r && r[row] == Eval(q, db, outer + [row], sem)
    decreases q, 2
  {
    imap row: Row | true :: Eval(q, db, outer + [row], sem)
  }

  ghost function EvalSubqueries(qs: seq<Query>, db: Database, outer: Outer, sem: Semantics): (r: seq<Correlated>)
    ensures |r| == |qs| && forall i | 0 <= i < |r| :: r[i] == EvalCorrelated(qs[i], db, outer, sem)
    decreases qs, 0
  {
    seq(|qs|, i requires 0 <= i < |qs| => EvalCorrelated(qs[i], db, outer, sem))
  }

  /** The bottom-up rewrite, subqueries included: a filter above every scan that projects the activator. */
  function FilterInactive(q: Query): Query
    decreases q
  {
    match q
    case Scan(_, projects, _, _) => if projects then ActiveFilter(q) else q
    case ActiveFilter(input) => ActiveFilter(FilterInactive(input))
    case Operator(op, inputs, subqueries) => Operator(op, FilterAll(inputs), FilterAll(subqueries))
  }

  function FilterAll(qs: seq<Query>): (r: seq<Query>)
    ensures |r| == |qs| && forall i | 0 <= i < |r| :: r[i] == FilterInactive(qs[i])
    decreases qs
  {
    seq(|qs|, i requires 0 <= i < |qs| => FilterInactive(qs[i]))
  }

  predicate AllProject(q: Query)
    decreases q
  {
    match q
    case Scan(_, projects, _, _) => projects
    case ActiveFilter(input) => AllProject(input)
    case Operator(_, inputs, subqueries) => AllProjectIn(inputs) && AllProjectIn(subqueries)
  }

  predicate AllProjectIn(qs: seq<Query>)
    decreases qs
  {
    forall i | 0 <= i < |qs| :: AllProject(qs[i])
  }

  /** Real rows first, padding after. */
  ghost predicate PaddedTable(rows: seq<Row>) {
    forall i, j | 0 <= i < j < |rows| && rows[j].active :: rows[i].active
  }

  // ---- filtering facts ----

  lemma {:induction false} KeepAppend(xs: seq<Row>, ys: seq<Row>, p: Predicate, outer: Outer)
    ensures Keep(xs + ys, p, outer) == Keep(xs, p, outer) + Keep(ys, p, outer)
  {
    if ys == [] {
      assert xs + ys == xs;
    } else {
      var init := ys[..|ys| - 1];
      assert (xs + ys)[..|xs + ys| - 1] == xs + init;
      KeepAppend(xs, init, p, outer);
    }
  }

  lemma {:induction false} KeepAllAppend(xs: seq<Row>, ys: seq<Row>, ps: seq<Predicate>, outer: Outer)
    ensures KeepAll(xs + ys, ps, outer) == KeepAll(xs, ps, outer) + KeepAll(ys, ps, outer)
  {
    if ps != [] {
      KeepAllAppend(xs, ys, ps[..|ps| - 1], outer);
      KeepAppend(KeepAll(xs, ps[..|ps| - 1], outer), KeepAll(ys, ps[..|ps| - 1], outer), ps[|ps| - 1], outer);
    }
  }

  lemma {:induction false} KeepSubset(rows: seq<Row>, p: Predicate, outer: Outer)
    ensures forall r | r in Keep(rows, p, outer) :: r in rows && p(outer, r)
  {
    if rows != [] {
      KeepSubset(rows[..|rows| - 1], p, outer);
    }
  }

  lemma {:induction false} KeepAllSubset(rows: seq<Row>, ps: seq<Predicate>, outer: Outer)
    ensures forall r | r in KeepAll(rows, ps, outer) :: r in rows
  {
    if ps != [] {
      KeepAllSubset(rows, ps[..|ps| - 1], outer);
      KeepSubset(KeepAll(rows, ps[..|ps| - 1], outer), ps[|ps| - 1], outer);
    }
  }

  lemma {:induction false} ActiveOnActive(rows: seq<Row>)
    requires forall i | 0 <= i < |rows| :: rows[i].active
    ensures Active(rows) == rows
  {
    if rows != [] {
      ActiveOnActive(rows[..|rows| - 1]);
    }
  }

  lemma {:induction false} ActiveOnPadding(rows: seq<Row>)
    requires forall i | 0 <= i < |rows| :: !rows[i].active
    ensures Active(rows) == []
  {
    if rows != [] {
      ActiveOnPadding(rows[..|rows| - 1]);
    }
  }

  /** Where the padding of a padded table starts. */
  lemma PaddingStart(rows: seq<Row>) returns (n: nat)
    requires PaddedTable(rows)
    ensures n <= |rows|
    ensures (forall r | r in rows[..n] :: r.active) && (forall r | r in rows[n..] :: !r.active)
  {
    n := 0;
    while n < |rows| && rows[n].active
      invariant n <= |rows| && forall i | 0 <= i < n :: rows[i].active
    {
      n := n + 1;
    }
  }

  /** The filter keeps what stands before the padding. */
  lemma ActivePrefix(rows: seq<Row>, n: nat)
    requires n <= |rows|
    requires (forall r | r in rows[..n] :: r.active) && (forall r | r in rows[n..] :: !r.active)
    ensures Active(rows) == rows[..n]
  {
    assert rows == rows[..n] + rows[n..];
    KeepAppend(rows[..n], rows[n..], IsActive, []);
    ActiveOnActive(rows[..n]);
    ActiveOnPadding(rows[n..]);
  }

  /** A limit counts the active rows first. */
  lemma TakeActive(kept: seq<Row>, padding: seq<Row>, limit: Option<nat>)
    requires (forall r | r in kept :: r.active) && (forall r | r in padding :: !r.active)
    ensures Active(Take(kept + padding, limit)) == Take(kept, limit)
  {
    var all := kept + padding;
    if limit.Some? && limit.value < |kept| {
      assert all[..limit.value] == kept[..limit.value];
      ActivePrefix(kept[..limit.value], limit.value);
    } else {
      var taken := Take(all, limit);
      assert taken[..|kept|] == kept;
      ActivePrefix(taken, |kept|);
    }
  }

  /** Filters and a fetch limit see the active rows first, so padding never takes their place. */
  lemma ScanFilters(rows: seq<Row>, filters: seq<Predicate>, limit: Option<nat>, outer: Outer)
    requires PaddedTable(rows)
    ensures Active(ScanRows(rows, filters, limit, outer)) == ScanRows(Active(rows), filters, limit, outer)
  {
    hide Take;
    var n := PaddingStart(rows);
    ActivePrefix(rows, n);
    assert rows == rows[..n] + rows[n..];
    KeepAllAppend(rows[..n], rows[n..], filters, outer);
    KeepAllSubset(rows[..n], filters, outer);
    KeepAllSubset(rows[n..], filters, outer);
    TakeActive(KeepAll(rows[..n], filters, outer), KeepAll(rows[n..], filters, outer), limit);
  }

  /** `clean` holds the active rows of every table of `padded`, whose inactive rows come last. */
  ghost predicate Cleans(padded: Database, clean: Database) {
    forall t :: PaddedTable(padded(t)) && clean(t) == Active(padded(t))
  }

  /** Executing the rewritten query on padded tables is executing the original on the active rows. */
  lemma {:induction false} PaddingIsInvisible(q: Query, padded: Database, clean: Database, outer: Outer, sem: Semantics)
    requires AllProject(q) && Cleans(padded, clean)
    ensures Eval(FilterInactive(q), padded, outer, sem) == Eval(q, clean, outer, sem)
    decreases q, 1
  {
    match q
    case Scan(table, _, filters, limit) =>
      ScanFilters(padded(table), filters, limit, outer);
    case ActiveFilter(input) =>
      PaddingIsInvisible(input, padded, clean, outer, sem);
    case Operator(_, inputs, subqueries) =>
      PaddingIsInvisibleIn(inputs, padded, clean, outer, sem);
      CorrelatedPaddingIsInvisible(subqueries, padded, clean, outer, sem);
  }

  lemma {:induction false} PaddingIsInvisibleIn(qs: seq<Query>, padded: Database, clean: Database, outer: Outer,
                                                sem: Semantics)
    requires AllProjectIn(qs) && Cleans(padded, clean)
    ensures EvalAll(FilterAll(qs), padded, outer, sem) == EvalAll(qs, clean, outer, sem)
    decreases qs, 0
  {
    forall i | 0 <= i < |qs|
      ensures Eval(FilterInactive(qs[i]), padded, outer, sem) == Eval(qs[i], clean, outer, sem)
    {
      PaddingIsInvisible(qs[i], padded, clean, outer, sem);
    }
  }

  /** Subqueries agree at every row they can be evaluated at. */
  lemma {:induction false} CorrelatedPaddingIsInvisible(qs: seq<Query>, padded: Database, clean: Database, outer: Outer,
                                                        sem: Semantics)
    requires AllProjectIn(qs) && Cleans(padded, clean)
    ensures EvalSubqueries(FilterAll(qs), padded, outer, sem) == EvalSubqueries(qs, clean, outer, sem)
    decreases qs, 0
  {
    hide Eval;
    forall i | 0 <= i < |qs|
      ensures EvalCorrelated(FilterInactive(qs[i]), padded, outer, sem) == EvalCorrelated(qs[i], clean, outer, sem)
    {
      forall row: Row
        ensures Eval(FilterInactive(qs[i]), padded, outer + [row], sem) == Eval(qs[i], clean, outer + [row], sem)
      {
        PaddingIsInvisible(qs[i], padded, clean, outer + [row], sem);
      }
    }
  }

  /** Tables from the padded writer: the rewrite recovers exactly the rows that were written. */
  lemma WrittenTables(out: seq<Row>, rows: seq<Values>)
    requires IsPadded(out, rows)
    ensures PaddedTable(out) && Active(out) == RealRows(rows, 0)
  {
    PaddedRows(out, rows);
    ActivePrefix(out, |rows|);
  }

  /** On written tables the rewritten query computes what the original does on the rows given to the writer. */
  lemma WrittenDatabase(q: Query, written: Database, given: Database, rows: nat -> seq<Values>,
                        outer: Outer, sem: Semantics)
    requires AllProject(q)
    requires forall t: nat :: IsPadded(written(t), rows(t)) && given(t) == RealRows(rows(t), 0)
    ensures Eval(FilterInactive(q), written, outer, sem) == Eval(q, given, outer, sem)
  {
    forall t: nat ensures PaddedTable(written(t)) && given(t) == Active(written(t)) {
      WrittenTables(written(t), rows(t));
    }
    PaddingIsInvisible(q, written, given, outer, sem);
  }

  /** Padding must come last: a padding row first uses up the limit. */
  lemma PaddingFirstShows(values: Values)
    ensures var rows := [Row(None, 0, false), Row(Some(values), 1, true)];
            Active(ScanRows(rows, [], Some(1), [])) != ScanRows(Active(rows), [], Some(1), [])
  {
    var pad, kept := Row(None, 0, false), Row(Some(values), 1, true);
    var rows := [pad, kept];
    assert rows == [pad] + [kept];
    KeepAppend([pad], [kept], IsActive, []);
    ActiveOnPadding([pad]);
    ActiveOnActive([kept]);
    assert rows[..1] == [pad];
  }
}
