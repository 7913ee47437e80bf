/** Whole programs: exactly which run as on a database without the rows of other tenants, and exactly which
    leave those rows alone. */
module TenantIsolation {
  import opened Schema
  import opened TenantScoping
  import opened TenantDatabase
  import opened TenantPrivacy

  /** Generated ids of statement `s`: ids(s)(0), ids(s)(1), ... */
  type IdSource = nat -> (nat -> Id)

  /** A program decides its next statement from the answers so far. */
  type Program = seq<Answer> -> Option<Request>

  /** At most `steps` further statements of a program, in one context: the rows and all answers. */
  ghost function Run(db: Db, context: Option<Tenant>, p: Program, ids: IdSource, rules: Constraints,
                     history: seq<Answer>, steps: nat)
    : (Db, seq<Answer>)
    decreases steps
  {
    if steps == 0 || p(history).None? then (db, history)
    else
      var (db', answer) := Statement(db, context, p(history).value, ids(|history|), rules);
      Run(db', context, p, ids, rules, history + [answer], steps - 1)
  }

  /** Only operations the extension names on tenant-scoped models; anything on global ones. */
  ghost predicate Named(p: Program) {
    forall h :: p(h).Some? ==> NamedRequest(p(h).value)
  }

  /** Ids are generated once: no row has an id of a statement still to come. */
  ghost predicate Ahead(db: Db, ids: IdSource, from: nat) {
    forall m, s, k :: from <= s ==> ids(s)(k) !in TableOf(db, m)
  }

  ghost predicate NeverRepeats(ids: IdSource) {
    forall s, k, s', k' :: ids(s)(k) == ids(s')(k') ==> s == s' && k == k'
  }

  ghost predicate AllConsistent(db: Db, rules: Constraints) {
    forall m :: Consistent(TableOf(db, m), rules(m).keys)
  }

  // ---------- what every statement keeps ----------

  /** Statements insert rows under their own generated ids only. */
  lemma {:induction false} StatementDomain(db: Db, context: Option<Tenant>, r: Request, ids: nat -> Id,
                                           rules: Constraints, m: Model, id: Id)
    requires id in TableOf(Statement(db, context, r, ids, rules).0, m)
    ensures id in TableOf(db, m) || exists k :: ids(k) == id
  {
    hide Hook, Accepts, Restricted, Doomed, Remainder, MeetsAll, Written, Answered, RowsPut, Seed, Inserted, IdsFree;
    if Hook(r, context).Some? {
      var a := Hook(r, context).value;
      var found := FoundBy(db, r, a);
      assert forall x :: x in found ==> x in TableOf(db, r.model);
      hide FoundBy;
      if Puts(r.op) && id in RowsPut(found, r.op, a, ids) {
        var k := PutIsWritten(found, r.op, a, ids, id);
      }
    }
  }

  lemma {:induction false} StaysAhead(db: Db, context: Option<Tenant>, r: Request, ids: IdSource, s: nat,
                                      rules: Constraints)
    requires Ahead(db, ids, s) && NeverRepeats(ids)
    ensures Ahead(Statement(db, context, r, ids(s), rules).0, ids, s + 1)
  {
    hide Statement, TableOf;
    var db' := Statement(db, context, r, ids(s), rules).0;
    forall m, s', k | s + 1 <= s'
      ensures ids(s')(k) !in TableOf(db', m)
    {
      assert ids(s')(k) !in TableOf(db, m);
      assert forall k' :: ids(s)(k') != ids(s')(k);
      if ids(s')(k) in TableOf(db', m) { StatementDomain(db, context, r, ids(s), rules, m, ids(s')(k)); }
    }
  }

  /** Losing rows and references makes no two rows collide. */
  lemma {:induction false} RemovedConsistent(db: Db, rules: Constraints, seed: set<Key>, m: Model)
    requires Regular(rules) && Consistent(TableOf(db, m), rules(m).keys)
    ensures Consistent(TableOf(Removed(db, rules, seed), m), rules(m).keys)
  {
    var before, after := TableOf(db, m), TableOf(Removed(db, rules, seed), m);
    RemovedTable(db, rules, seed, m);
    hide Regular, Doomed, Removed, Collide;
    forall u, i, j | u in rules(m).keys && i in after && j in after && i != j
      ensures !Collide(after[i], after[j], u)
    {
      if Collide(after[i], after[j], u) {
        RemainderCollides(db, rules, seed, Key(m, i), Key(m, j), before[i], before[j], u);
      }
    }
  }

  lemma {:induction false} RemainderKeeps(db: Db, rules: Constraints, seed: set<Key>, k: Key, row: Row, u: UniqueKey,
                                          c: string)
    requires Regular(rules) && u in rules(k.model).keys
    requires c in u.columns || c in u.only || (u.span.Some? && (c == u.span.value.0 || c == u.span.value.1))
    ensures c in Remainder(db, rules, seed, k, row) <==> c in row
    ensures ColumnOf(Remainder(db, rules, seed, k, row), c) == ColumnOf(row, c)
  {
    assert !Emptied(db, rules, seed, k, c) by { hide Doomed, Points; }
    hide Emptied, Regular;
  }

  lemma {:induction false} RemainderCollides(db: Db, rules: Constraints, seed: set<Key>, i: Key, j: Key, r: Row, s: Row,
                                             u: UniqueKey)
    requires Regular(rules) && i.model == j.model && u in rules(i.model).keys
    requires Collide(Remainder(db, rules, seed, i, r), Remainder(db, rules, seed, j, s), u)
    ensures Collide(r, s, u)
  {
    hide Regular, Remainder;
    forall c | c in u.columns || c in u.only || (u.span.Some? && (c == u.span.value.0 || c == u.span.value.1))
      ensures c in Remainder(db, rules, seed, i, r) <==> c in r
      ensures c in Remainder(db, rules, seed, j, s) <==> c in s
      ensures ColumnOf(Remainder(db, rules, seed, i, r), c) == ColumnOf(r, c)
      ensures ColumnOf(Remainder(db, rules, seed, j, s), c) == ColumnOf(s, c)
    {
      RemainderKeeps(db, rules, seed, i, r, u, c);
      RemainderKeeps(db, rules, seed, j, s, u, c);
    }
  }

  /** Statements keep every table's keys. */
  lemma {:induction false} StaysConsistent(db: Db, context: Option<Tenant>, r: Request, ids: nat -> Id,
                                           rules: Constraints)
    requires AllConsistent(db, rules) && Regular(rules)
    ensures AllConsistent(Statement(db, context, r, ids, rules).0, rules)
  {
    hide Hook, Consistent, Regular, RowsPut, Answered, FoundBy, IdsFree, RefsHold, Restricted, Seed, Removed;
    if Hook(r, context).Some? && Removes(r.op) {
      var seed := Seed(r.model, FoundBy(db, r, Hook(r, context).value), r.op);
      forall m
        ensures Consistent(TableOf(Removed(db, rules, seed), m), rules(m).keys)
      {
        RemovedConsistent(db, rules, seed, m);
      }
    }
  }

  // ---------- what happens to other tenants' rows ----------

  /** The row, with some columns emptied. */
  predicate Faded(r: Row, s: Row) {
    s.Keys == r.Keys && forall c :: c in r ==> s[c] == r[c] || s[c] == Null
  }

  /** Rows are lost or emptied, never added or written. */
  predicate Fades(before: Table, after: Table) {
    forall id :: id in after ==> id in before && Faded(before[id], after[id])
  }

  ghost predicate OthersFade(db: Db, db': Db, context: Option<Tenant>) {
    forall m :: Fades(Unseen(TableOf(db, m), context, m), Unseen(TableOf(db', m), context, m))
  }

  lemma {:induction false} FadesTrans(a: Table, b: Table, c: Table)
    requires Fades(a, b) && Fades(b, c)
    ensures Fades(a, c) && (a == c ==> a == b)
  {
    if a == c {
      forall id | id in a
        ensures id in b && b[id] == a[id]
      {
        assert id in c && id in b;
        assert Faded(a[id], b[id]) && Faded(b[id], c[id]);
      }
    }
  }

  lemma {:induction false} OthersFadeTrans(a: Db, b: Db, c: Db, context: Option<Tenant>)
    requires OthersFade(a, b, context) && OthersFade(b, c, context)
    ensures OthersFade(a, c, context)
    ensures OthersKept(a, c, context) <==> OthersKept(a, b, context) && OthersKept(b, c, context)
  {
    hide Fades, Unseen;
    forall m
      ensures Fades(Unseen(TableOf(a, m), context, m), Unseen(TableOf(c, m), context, m))
      ensures Unseen(TableOf(a, m), context, m) == Unseen(TableOf(c, m), context, m) ==>
                Unseen(TableOf(a, m), context, m) == Unseen(TableOf(b, m), context, m)
    {
      FadesTrans(Unseen(TableOf(a, m), context, m), Unseen(TableOf(b, m), context, m),
                 Unseen(TableOf(c, m), context, m));
    }
  }

  lemma {:induction false} KeptFades(db: Db, db': Db, context: Option<Tenant>)
    requires OthersKept(db, db', context)
    ensures OthersFade(db, db', context)
  {
    hide Unseen;
  }

  lemma {:induction false} RemovedFades(db: Db, context: Option<Tenant>, rules: Constraints, seed: set<Key>)
    requires Regular(rules)
    ensures OthersFade(db, Removed(db, rules, seed), context)
  {
    hide Doomed, Emptied, Regular, Removed, Mine;
    forall m
      ensures Fades(Unseen(TableOf(db, m), context, m), Unseen(TableOf(Removed(db, rules, seed), m), context, m))
    {
      RemovedTable(db, rules, seed, m);
      forall id | id in TableOf(db, m)
        ensures Mine(context, m, Remainder(db, rules, seed, Key(m, id), TableOf(db, m)[id]))
                <==> Mine(context, m, TableOf(db, m)[id])
      {
        RemainderMine(db, context, rules, seed, Key(m, id), TableOf(db, m)[id]);
      }
    }
  }

  lemma {:induction false} StatementFades(db: Db, context: Option<Tenant>, r: Request, ids: nat -> Id,
                                          rules: Constraints)
    requires NamedRequest(r) && Regular(rules)
    ensures OthersFade(db, Statement(db, context, r, ids, rules).0, context)
  {
    hide Hook, Regular, OthersFade, OthersKept, Removed, Restricted, Hitting, FoundBy, Answered, RowsPut, Accepts,
         IdsFree, Seed;
    var db' := Statement(db, context, r, ids, rules).0;
    OthersThemselves(db, context);
    KeptFades(db, db, context);
    if Hook(r, context).Some? && Removes(r.op) {
      RemovedFades(db, context, rules, Seed(r.model, FoundBy(db, r, Hook(r, context).value), r.op));
    } else {
      StatementKeepsOthersIff(db, context, r, ids, rules);
      assert !Hitting(db, context, r, rules) by { NotHitting(db, context, r, rules); }
      KeptFades(db, db', context);
    }
  }

  lemma {:induction false} NotHitting(db: Db, context: Option<Tenant>, r: Request, rules: Constraints)
    requires Hook(r, context).None? || !Removes(r.op)
    ensures !Hitting(db, context, r, rules)
  {
    hide Hit, Restricted, FoundBy;
  }

  // ---------- whole programs ----------

  /** Some delete of the run hits another tenant's row. */
  ghost predicate HittingInRun(db: Db, context: Option<Tenant>, p: Program, ids: IdSource, rules: Constraints,
                               history: seq<Answer>, steps: nat)
    decreases steps
  {
    && steps != 0 && p(history).Some?
    && (|| Hitting(db, context, p(history).value, rules)
        || var out := Statement(db, context, p(history).value, ids(|history|), rules);
           HittingInRun(out.0, context, p, ids, rules, history + [out.1], steps - 1))
  }

  /** Some statement of the run is decided by another tenant's row. */
  ghost predicate DecisiveInRun(db: Db, context: Option<Tenant>, p: Program, ids: IdSource, rules: Constraints,
                                history: seq<Answer>, steps: nat)
    decreases steps
  {
    && steps != 0 && p(history).Some?
    && (|| Decisive(db, context, p(history).value, ids(|history|), rules)
        || var out := Statement(db, context, p(history).value, ids(|history|), rules);
           DecisiveInRun(out.0, context, p, ids, rules, history + [out.1], steps - 1))
  }

  lemma {:induction false} RunKeepsOthersIff(db: Db, context: Option<Tenant>, p: Program, ids: IdSource,
                                             rules: Constraints, history: seq<Answer>, steps: nat)
    requires Named(p) && Regular(rules)
    ensures var db' := Run(db, context, p, ids, rules, history, steps).0;
            && OthersFade(db, db', context)
            && (OthersKept(db, db', context) <==> !HittingInRun(db, context, p, ids, rules, history, steps))
    decreases steps
  {
    hide Statement, OthersFade, OthersKept, Hitting, Regular;
    if steps == 0 || p(history).None? {
      OthersThemselves(db, context);
      KeptFades(db, db, context);
    } else {
      var r, now := p(history).value, ids(|history|);
      var out := Statement(db, context, r, now, rules);
      StatementFades(db, context, r, now, rules);
      StatementKeepsOthersIff(db, context, r, now, rules);
      RunKeepsOthersIff(out.0, context, p, ids, rules, history + [out.1], steps - 1);
      OthersFadeTrans(db, out.0, Run(db, context, p, ids, rules, history, steps).0, context);
    }
  }

  /** Isolation of writes: whatever a program does, for however long, rows of other tenants are never added
      or written; they can only be lost or emptied by the delete of a row they refer to, and stay as they were
      if and only if no delete of the run hits one. */
  lemma {:induction false} ProgramTouchesOwnRowsOnly(db: Db, context: Option<Tenant>, p: Program, ids: IdSource,
                                                     rules: Constraints, steps: nat)
    requires Named(p) && Regular(rules)
    ensures var db' := Run(db, context, p, ids, rules, [], steps).0;
            && OthersFade(db, db', context)
            && (OthersKept(db, db', context) <==> !HittingInRun(db, context, p, ids, rules, [], steps))
  {
    RunKeepsOthersIff(db, context, p, ids, rules, [], steps);
  }

  /** Answers are only appended. */
  lemma {:induction false} AnswersGrow(db: Db, context: Option<Tenant>, p: Program, ids: IdSource, rules: Constraints,
                                       history: seq<Answer>, steps: nat)
    ensures var answers := Run(db, context, p, ids, rules, history, steps).1;
            |history| <= |answers| && answers[..|history|] == history
    decreases steps
  {
    hide Statement;
    if steps != 0 && p(history).Some? {
      var out := Statement(db, context, p(history).value, ids(|history|), rules);
      AnswersGrow(out.0, context, p, ids, rules, history + [out.1], steps - 1);
      var answers := Run(db, context, p, ids, rules, history, steps).1;
      assert answers[..|history|] == answers[..|history| + 1][..|history|];
    }
  }

  /** Different answers to one statement stay different. */
  lemma {:induction false} AnswersDiffer(db: Db, db': Db, context: Option<Tenant>, p: Program, ids: IdSource,
                                         rules: Constraints, history: seq<Answer>, a: Answer, a': Answer, steps: nat)
    requires a != a'
    ensures Run(db, context, p, ids, rules, history + [a], steps).1
            != Run(db', context, p, ids, rules, history + [a'], steps).1
  {
    hide Run;
    AnswersGrow(db, context, p, ids, rules, history + [a], steps);
    AnswersGrow(db', context, p, ids, rules, history + [a'], steps);
    assert (history + [a])[|history|] != (history + [a'])[|history|];
  }

  lemma {:induction false} RunBeside(db: Db, context: Option<Tenant>, p: Program, ids: IdSource, rules: Constraints,
                                     history: seq<Answer>, steps: nat)
    requires Named(p) && Regular(rules) && NeverRepeats(ids) && Ahead(db, ids, |history|) && AllConsistent(db, rules)
    ensures var out := Run(db, context, p, ids, rules, history, steps);
            var alone := Run(Alone(db, context), context, p, ids, rules, history, steps);
            var decisive := DecisiveInRun(db, context, p, ids, rules, history, steps);
            && (out.1 == alone.1 && OthersKept(db, out.0, context) <==> !decisive)
            && (!decisive ==> Alone(out.0, context) == alone.0)
    decreases steps
  {
    hide Statement, AllConsistent, Decisive, TableOf, Alone, OthersKept, OthersFade, Regular;
    if steps == 0 || p(history).None? {
      OthersThemselves(db, context);
    } else {
      var r, now := p(history).value, ids(|history|);
      var out, alone := Statement(db, context, r, now, rules), Statement(Alone(db, context), context, r, now, rules);
      StatementBeside(db, context, r, now, rules);
      StatementFades(db, context, r, now, rules);
      RunKeepsOthersIff(out.0, context, p, ids, rules, history + [out.1], steps - 1);
      var db' := Run(db, context, p, ids, rules, history, steps).0;
      OthersFadeTrans(db, out.0, db', context);
      if out.1 != alone.1 {
        AnswersDiffer(out.0, alone.0, context, p, ids, rules, history, out.1, alone.1, steps - 1);
      } else if !Decisive(db, context, r, now, rules) {
        StaysAhead(db, context, r, ids, |history|, rules);
        RunBeside(out.0, context, p, ids, rules, history + [out.1], steps - 1);
      }
    }
  }

  lemma {:induction false} StatementBeside(db: Db, context: Option<Tenant>, r: Request, ids: nat -> Id,
                                           rules: Constraints)
    requires NamedRequest(r) && Regular(rules) && (forall m, k :: ids(k) !in TableOf(db, m)) && AllConsistent(db, rules)
    ensures AsAlone(db, context, r, ids, rules) <==> !Decisive(db, context, r, ids, rules)
    ensures var out, alone := Statement(db, context, r, ids, rules),
            Statement(Alone(db, context), context, r, ids, rules);
            && (out.1 == alone.1 && OthersKept(db, out.0, context) <==> !Decisive(db, context, r, ids, rules))
            && (!Decisive(db, context, r, ids, rules) ==> Alone(out.0, context) == alone.0)
            && AllConsistent(out.0, rules)
  {
    hide Statement, Decisive, Regular, Alone, OthersKept;
    StatementAloneIff(db, context, r, ids, rules);
    StaysConsistent(db, context, r, ids, rules);
  }

  /** A program is answered exactly as on the database without the rows of other tenants, and leaves those rows
      as they were, if and only if no statement of the run is decided by one of them; and then the rows it sees
      end up the same. */
  lemma {:induction false} ProgramAloneIff(db: Db, context: Option<Tenant>, p: Program, ids: IdSource,
                                           rules: Constraints, steps: nat)
    requires Named(p) && Regular(rules) && NeverRepeats(ids) && Ahead(db, ids, 0) && AllConsistent(db, rules)
    ensures var (db', answers) := Run(db, context, p, ids, rules, [], steps);
            var (alone', answers') := Run(Alone(db, context), context, p, ids, rules, [], steps);
            var decisive := DecisiveInRun(db, context, p, ids, rules, [], steps);
            && (answers == answers' && OthersKept(db, db', context) <==> !decisive)
            && (!decisive ==> Alone(db', context) == alone')
  {
    RunBeside(db, context, p, ids, rules, [], steps);
  }

  /** Two databases that show the context the same rows therefore answer a program alike, and go on showing it
      the same rows, as long as no other tenant's row decides a statement on either. */
  lemma {:induction false} UndecidedRunsAgree(db1: Db, db2: Db, context: Option<Tenant>, p: Program, ids: IdSource,
                                              rules: Constraints, steps: nat)
    requires Named(p) && Regular(rules) && NeverRepeats(ids) && Ahead(db1, ids, 0) && Ahead(db2, ids, 0)
    requires AllConsistent(db1, rules) && AllConsistent(db2, rules) && Alone(db1, context) == Alone(db2, context)
    requires !DecisiveInRun(db1, context, p, ids, rules, [], steps)
    requires !DecisiveInRun(db2, context, p, ids, rules, [], steps)
    ensures var (db1', h1) := Run(db1, context, p, ids, rules, [], steps);
            var (db2', h2) := Run(db2, context, p, ids, rules, [], steps);
            h1 == h2 && Alone(db1', context) == Alone(db2', context)
  {
    hide Run, DecisiveInRun, AllConsistent, Alone, OthersKept, Regular;
    ProgramAloneIff(db1, context, p, ids, rules, steps);
    ProgramAloneIff(db2, context, p, ids, rules, steps);
  }

  // ---------- without a tenant ----------

  /** Every answer from `from` on to a request on a tenant-scoped model is the thrown error. */
  ghost predicate ScopedRefused(p: Program, answers: seq<Answer>, from: nat) {
    forall i :: from <= i < |answers| ==>
      var r := p(answers[..i]);
      r.Some? && (r.value.model in TENANT_SCOPED_MODELS ==> answers[i] == Refused)
  }

  lemma {:induction false} RunFailsClosed(db: Db, p: Program, ids: IdSource, rules: Constraints, history: seq<Answer>,
                                          steps: nat)
    ensures ScopedRefused(p, Run(db, None, p, ids, rules, history, steps).1, |history|)
    decreases steps
  {
    hide Statement;
    if steps != 0 && p(history).Some? {
      var out := Statement(db, None, p(history).value, ids(|history|), rules);
      RefusedStatement(db, p(history).value, ids(|history|), rules);
      RunFailsClosed(out.0, p, ids, rules, history + [out.1], steps - 1);
      AnswersGrow(out.0, None, p, ids, rules, history + [out.1], steps - 1);
      var answers := Run(db, None, p, ids, rules, history, steps).1;
      assert answers[..|history| + 1] == history + [out.1];
      assert answers[..|history|] == history && answers[|history|] == out.1;
    }
  }

  lemma {:induction false} RefusedStatement(db: Db, r: Request, ids: nat -> Id, rules: Constraints)
    ensures r.model in TENANT_SCOPED_MODELS ==> Statement(db, None, r, ids, rules).1 == Refused
  {
    hide Perform;
  }

  /** Outside a tenant's context every program, however long, is refused every statement on a tenant-scoped
      model and writes nothing there; such tables stay as they were if and only if no delete of a global row
      hits one of their rows. */
  lemma {:induction false} FailsClosed(db: Db, p: Program, ids: IdSource, rules: Constraints, steps: nat)
    requires Named(p) && Regular(rules)
    ensures var (db', answers) := Run(db, None, p, ids, rules, [], steps);
            && ScopedRefused(p, answers, 0)
            && (forall m :: m in TENANT_SCOPED_MODELS ==> Fades(TableOf(db, m), TableOf(db', m)))
            && ((forall m :: m in TENANT_SCOPED_MODELS ==> TableOf(db', m) == TableOf(db, m))
                <==> !HittingInRun(db, None, p, ids, rules, [], steps))
  {
    RunFailsClosed(db, p, ids, rules, [], steps);
    RunKeepsOthersIff(db, None, p, ids, rules, [], steps);
    hide Run, HittingInRun, Fades, TableOf, Regular;
    UnseenWithoutTenant(db);
    UnseenWithoutTenant(Run(db, None, p, ids, rules, [], steps).0);
  }

  lemma {:induction false} UnseenWithoutTenant(db: Db)
    ensures forall m :: Unseen(TableOf(db, m), None, m) == if m in TENANT_SCOPED_MODELS then TableOf(db, m) else map[]
  {
    hide TableOf;
  }

  /** The program deletes no global row, and on global models writes only where nothing refers to a
      tenant-scoped one. */
  ghost predicate Detached(p: Program, rules: Constraints) {
    forall h :: p(h).Some? && p(h).value.model !in TENANT_SCOPED_MODELS ==>
      && !Removes(p(h).value.op)
      && forall c :: c in rules(p(h).value.model).refs ==>
           rules(p(h).value.model).refs[c].target !in TENANT_SCOPED_MODELS
  }

  lemma {:induction false} DetachedStatement(db: Db, r: Request, ids: nat -> Id, rules: Constraints)
    requires r.model !in TENANT_SCOPED_MODELS ==>
               !Removes(r.op) && forall c :: c in rules(r.model).refs ==>
                   rules(r.model).refs[c].target !in TENANT_SCOPED_MODELS
    ensures !Decisive(db, None, r, ids, rules)
  {
    hide FoundBy, RowsPut, Answered, Accepts, Resolves, Consistent, Collide, With, Hit, Points;
    if Hook(r, None).Some? && Puts(r.op) {
      var rows := RowsPut(FoundBy(db, r, r.args), r.op, r.args, ids);
      assert !CrossCollision(TableOf(db, r.model) + rows, None, r.model, rules(r.model).keys);
      assert forall id, c :: id in rows && c in rules(r.model).refs ==>
               !Foreign(With(db, r.model, rows), None, rows[id], c, rules(r.model).refs[c]);
    }
  }

  lemma {:induction false} DetachedRun(db: Db, p: Program, ids: IdSource, rules: Constraints, history: seq<Answer>,
                                       steps: nat)
    requires Detached(p, rules)
    ensures !DecisiveInRun(db, None, p, ids, rules, history, steps)
    decreases steps
  {
    hide Statement, Decisive;
    if steps != 0 && p(history).Some? {
      var out := Statement(db, None, p(history).value, ids(|history|), rules);
      DetachedStatement(db, p(history).value, ids(|history|), rules);
      DetachedRun(out.0, p, ids, rules, history + [out.1], steps - 1);
    }
  }

  /** Nor does such a program learn anything of tenant-scoped rows: databases with the same global rows answer
      it alike. */
  lemma {:induction false} NothingReadWithoutTenant(db1: Db, db2: Db, p: Program, ids: IdSource, rules: Constraints,
                                                    steps: nat)
    requires Named(p) && Detached(p, rules) && Regular(rules) && NeverRepeats(ids) && Ahead(db1, ids, 0)
             && Ahead(db2, ids, 0)
    requires AllConsistent(db1, rules) && AllConsistent(db2, rules) && Alone(db1, None) == Alone(db2, None)
    ensures Run(db1, None, p, ids, rules, [], steps).1 == Run(db2, None, p, ids, rules, [], steps).1
  {
    hide Run, DecisiveInRun, AllConsistent, Alone, Regular;
    DetachedRun(db1, p, ids, rules, [], steps);
    DetachedRun(db2, p, ids, rules, [], steps);
    UndecidedRunsAgree(db1, db2, None, p, ids, rules, steps);
  }
}
