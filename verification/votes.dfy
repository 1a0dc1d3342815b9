/** The vote ledger and its denormalised counter: `upvoteProject` and
    `upvoteThread`, which run the same toggle against two kinds of target.

    For each kind the store holds a set of (actor, target) facts and, in each
    target row, an `upvoteCount`. One toggle looks up the caller's fact; if
    it exists it deletes it and decrements the counter, otherwise it inserts
    it and increments the counter, both writes in one transaction; then it
    re-reads the counter. The invariant the pair must keep is `Reconciled`:
    every counter equals the number of facts on its target. */
module Votes {
  import opened Wrappers
  import opened Model

  /** Which ledger and counter a toggle touches. */
  datatype TargetKind = OnProject | OnThread

  /** The vote facts of one kind. */
  function Facts(db: Db, kind: TargetKind): set<Fact> {
    match kind
    case OnProject => db.projectUpvotes
    case OnThread => db.threadUpvotes
  }

  /** The stored `upvoteCount` of target `t`, or `None` when no row has that
      id. */
  function Counter(db: Db, kind: TargetKind, t: Id): Option<int> {
    match kind
    case OnProject => if t in db.projects then Some(db.projects[t].upvoteCount) else None
    case OnThread => if t in db.threads then Some(db.threads[t].upvoteCount) else None
  }

  /** The one transaction of a toggle: replace the fact set of `kind` and set
      the counter of row `t`. */
  function Write(db: Db, kind: TargetKind, facts: set<Fact>, t: Id, count: int): (db': Db)
    requires Counter(db, kind, t).Some?
    ensures Facts(db', kind) == facts
    ensures Counter(db', kind, t) == Some(count)
    ensures Erase(db', kind, t) == Erase(db, kind, t)
  {
    match kind
    case OnProject =>
      db.(projectUpvotes := facts,
          projects := db.projects[t := db.projects[t].(upvoteCount := count)])
    case OnThread =>
      db.(threadUpvotes := facts,
          threads := db.threads[t := db.threads[t].(upvoteCount := count)])
  }

  /** The store with the facts of `kind` forgotten and the counter of `t`
      zeroed: two stores with equal erasures differ at most in those. */
  function Erase(db: Db, kind: TargetKind, t: Id): Db {
    match kind
    case OnProject =>
      db.(projectUpvotes := {},
          projects := if t in db.projects then db.projects[t := db.projects[t].(upvoteCount := 0)]
                      else db.projects)
    case OnThread =>
      db.(threadUpvotes := {},
          threads := if t in db.threads then db.threads[t := db.threads[t].(upvoteCount := 0)]
                     else db.threads)
  }

  /** The facts on target `t`. */
  ghost function OnTarget(facts: set<Fact>, t: Id): set<Fact> {
    set f | f in facts && f.target == t
  }

  /** How many live votes target `t` has. */
  ghost function Tally(facts: set<Fact>, t: Id): nat {
    |OnTarget(facts, t)|
  }

  /** Counter and ledger agree: every fact points at an existing row, and
      every row's counter is the number of facts on it. */
  ghost predicate Reconciled(db: Db, kind: TargetKind) {
    && (forall f :: f in Facts(db, kind) ==> Counter(db, kind, f.target).Some?)
    && (forall t :: Counter(db, kind, t).Some? ==> Counter(db, kind, t).value == Tally(Facts(db, kind), t))
  }

  datatype VoteError = NotSignedIn | StoreFailure

  /** A successful toggle: whether the caller now has a vote, and the
      counter as re-read after the write. */
  datatype Toggled = Toggled(upvoted: bool, newCount: int)

  /** What the action returns to the client: `{success, upvoted, newCount}`. */
  datatype Response = Response(success: bool, upvoted: bool, newCount: int)

  /** Every failure is reported as `success: false, upvoted: false,
      newCount: 0`. */
  function ResponseOf(r: Result<Toggled, VoteError>): (resp: Response)
    ensures resp.success <==> r.Success?
    ensures r.Failure? ==> !resp.upvoted && resp.newCount == 0
    ensures r.Success? ==> resp.upvoted == r.value.upvoted && resp.newCount == r.value.newCount
  {
    match r
    case Success(v) => Response(true, v.upvoted, v.newCount)
    case Failure(_) => Response(false, false, 0)
  }

  function ErrorMessage(e: VoteError): string {
    match e
    case NotSignedIn => "You must be signed in to upvote"
    case StoreFailure => "Something went wrong"
  }

  /** One vote toggle by the session's user on target `t` of `kind`.

      A missing row makes the transaction's counter update (or the fact's
      foreign key) fail, which rolls the transaction back. */
  function Toggle(db: Db, kind: TargetKind, session: Session, t: Id): (out: (Db, Result<Toggled, VoteError>))
    ensures session.None? ==> out == (db, Failure(NotSignedIn))
    ensures out.1.Failure? ==> out.0 == db
    ensures session.Some? && Counter(db, kind, t).Some? ==> out.1.Success?
    ensures out.1.Success? ==>
              var f := Fact(session.value, t);
              var v := out.1.value;
              && session.Some?
              && v.upvoted == (f !in Facts(db, kind))
              && (f in Facts(out.0, kind) <==> v.upvoted)
              && Facts(out.0, kind) - {f} == Facts(db, kind) - {f}
              && Counter(db, kind, t).Some?
              && Counter(out.0, kind, t) == Some(Counter(db, kind, t).value + (if v.upvoted then 1 else -1))
              && v.newCount == Counter(out.0, kind, t).value
              && Erase(out.0, kind, t) == Erase(db, kind, t)
  {
    if session.None? then (db, Failure(NotSignedIn))
    else if Counter(db, kind, t).None? then (db, Failure(StoreFailure))
    else
      var f := Fact(session.value, t);
      var count := Counter(db, kind, t).value;
      var facts := Facts(db, kind);
      var upvoted := f !in facts;
      var db' := if upvoted then Write(db, kind, facts + {f}, t, count + 1)
                 else Write(db, kind, facts - {f}, t, count - 1);
      (db', Success(Toggled(upvoted, Counter(db', kind, t).GetOr(0))))
  }

  /** `upvoteProject`. */
  function UpvoteProject(db: Db, session: Session, projectId: Id): (out: (Db, Response))
    ensures session.None? ==> out == (db, Response(false, false, 0))
    ensures !out.1.success ==> out.0 == db && out.1 == Response(false, false, 0)
    ensures out.1.success <==> session.Some? && Counter(db, OnProject, projectId).Some?
    ensures out.1.success ==>
              && out.1.upvoted == (Fact(session.value, projectId) !in Facts(db, OnProject))
              && (Fact(session.value, projectId) in Facts(out.0, OnProject) <==> out.1.upvoted)
              && Some(out.1.newCount) == Counter(out.0, OnProject, projectId)
              && out.1.newCount == Counter(db, OnProject, projectId).value + (if out.1.upvoted then 1 else -1)
  {
    var (db', r) := Toggle(db, OnProject, session, projectId);
    (db', ResponseOf(r))
  }

  /** `upvoteThread`. */
  function UpvoteThread(db: Db, session: Session, threadId: Id): (out: (Db, Response))
    ensures session.None? ==> out == (db, Response(false, false, 0))
    ensures !out.1.success ==> out.0 == db && out.1 == Response(false, false, 0)
    ensures out.1.success <==> session.Some? && Counter(db, OnThread, threadId).Some?
    ensures out.1.success ==>
              && out.1.upvoted == (Fact(session.value, threadId) !in Facts(db, OnThread))
              && (Fact(session.value, threadId) in Facts(out.0, OnThread) <==> out.1.upvoted)
              && Some(out.1.newCount) == Counter(out.0, OnThread, threadId)
              && out.1.newCount == Counter(db, OnThread, threadId).value + (if out.1.upvoted then 1 else -1)
  {
    var (db', r) := Toggle(db, OnThread, session, threadId);
    (db', ResponseOf(r))
  }

  /** Adding a fact not yet present raises the tally of its own target by
      one and leaves every other tally alone. */
  lemma TallyAfterInsert(facts: set<Fact>, f: Fact, t: Id)
    requires f !in facts
    ensures Tally(facts + {f}, t) == Tally(facts, t) + (if f.target == t then 1 else 0)
  {
    if f.target == t {
      assert OnTarget(facts + {f}, t) == OnTarget(facts, t) + {f};
    } else {
      assert OnTarget(facts + {f}, t) == OnTarget(facts, t);
    }
  }

  /** Removing a present fact lowers the tally of its own target by one and
      leaves every other tally alone. */
  lemma TallyAfterDelete(facts: set<Fact>, f: Fact, t: Id)
    requires f in facts
    ensures Tally(facts - {f}, t) == Tally(facts, t) - (if f.target == t then 1 else 0)
  {
    if f.target == t {
      assert OnTarget(facts, t) == OnTarget(facts - {f}, t) + {f};
    } else {
      assert OnTarget(facts - {f}, t) == OnTarget(facts, t);
    }
  }

  /** Rows are neither created nor removed by a toggle, and no counter but
      the target's moves. */
  lemma ToggleKeepsOtherCounters(db: Db, kind: TargetKind, session: Session, t: Id, u: Id)
    requires u != t
    ensures Counter(Toggle(db, kind, session, t).0, kind, u) == Counter(db, kind, u)
  {
    var db' := Toggle(db, kind, session, t).0;
    if db' != db {
      assert Erase(db', kind, t) == Erase(db, kind, t);
      match kind
      case OnProject =>
        assert Erase(db', kind, t).projects == Erase(db, kind, t).projects;
        if u in db.projects {
          assert Erase(db, kind, t).projects[u] == db.projects[u];
        }
        if u in db'.projects {
          assert Erase(db', kind, t).projects[u] == db'.projects[u];
        }
      case OnThread =>
        assert Erase(db', kind, t).threads == Erase(db, kind, t).threads;
        if u in db.threads {
          assert Erase(db, kind, t).threads[u] == db.threads[u];
        }
        if u in db'.threads {
          assert Erase(db', kind, t).threads[u] == db'.threads[u];
        }
    }
  }

  /** The central invariant: every toggle, successful or not, keeps each
      counter equal to the number of facts on its target. */
  lemma ToggleKeepsReconciled(db: Db, kind: TargetKind, session: Session, t: Id)
    requires Reconciled(db, kind)
    ensures Reconciled(Toggle(db, kind, session, t).0, kind)
  {
    var (db', r) := Toggle(db, kind, session, t);
    if r.Success? {
      var f := Fact(session.value, t);
      var facts, facts' := Facts(db, kind), Facts(db', kind);
      forall g | g in facts'
        ensures Counter(db', kind, g.target).Some?
      {
        if g.target != t {
          ToggleKeepsOtherCounters(db, kind, session, t, g.target);
          assert g in facts;
        }
      }
      forall u | Counter(db', kind, u).Some?
        ensures Counter(db', kind, u).value == Tally(facts', u)
      {
        if r.value.upvoted {
          assert facts' == facts + {f};
          TallyAfterInsert(facts, f, u);
        } else {
          assert facts' == facts - {f};
          TallyAfterDelete(facts, f, u);
        }
        if u != t {
          ToggleKeepsOtherCounters(db, kind, session, t, u);
        }
      }
    }
  }

  /** A second write to the same row overrides the first. */
  lemma WriteOverWrite(db: Db, kind: TargetKind, t: Id, facts1: set<Fact>, count1: int, facts2: set<Fact>, count2: int)
    requires Counter(db, kind, t).Some?
    ensures Write(Write(db, kind, facts1, t, count1), kind, facts2, t, count2) == Write(db, kind, facts2, t, count2)
  {
  }

  /** Writing back what is stored changes nothing. */
  lemma WriteUnchanged(db: Db, kind: TargetKind, t: Id)
    requires Counter(db, kind, t).Some?
    ensures Write(db, kind, Facts(db, kind), t, Counter(db, kind, t).value) == db
  {
    match kind
    case OnProject =>
      assert db.projects[t].(upvoteCount := db.projects[t].upvoteCount) == db.projects[t];
      assert db.projects[t := db.projects[t]] == db.projects;
    case OnThread =>
      assert db.threads[t].(upvoteCount := db.threads[t].upvoteCount) == db.threads[t];
      assert db.threads[t := db.threads[t]] == db.threads;
  }

  /** Toggling the same (actor, target) twice restores the store exactly:
      the fact set, the counter and every other row; the second toggle
      reports the opposite vote and the original count. */
  lemma ToggleTwiceRestores(db: Db, kind: TargetKind, session: Session, t: Id)
    ensures var (db1, r1) := Toggle(db, kind, session, t);
            var (db2, r2) := Toggle(db1, kind, session, t);
            && db2 == db
            && (r1.Success? <==> r2.Success?)
            && (r1.Success? ==> r2.value.upvoted == !r1.value.upvoted
                                && r2.value.newCount == Counter(db, kind, t).value)
  {
    var (db1, r1) := Toggle(db, kind, session, t);
    if r1.Success? {
      if Fact(session.value, t) in Facts(db, kind) {
        UnvoteThenVote(db, kind, session.value, t);
      } else {
        VoteThenUnvote(db, kind, session.value, t);
      }
    }
  }

  lemma UnvoteThenVote(db: Db, kind: TargetKind, user: Id, t: Id)
    requires Counter(db, kind, t).Some? && Fact(user, t) in Facts(db, kind)
    ensures Toggle(Toggle(db, kind, Some(user), t).0, kind, Some(user), t).0 == db
  {
    var f := Fact(user, t);
    var facts := Facts(db, kind);
    var count := Counter(db, kind, t).value;
    var db1 := Toggle(db, kind, Some(user), t).0;
    WriteUnchanged(db, kind, t);
    assert db1 == Write(db, kind, facts - {f}, t, count - 1);
    assert f !in Facts(db1, kind) && Counter(db1, kind, t) == Some(count - 1);
    assert facts - {f} + {f} == facts;
    assert Toggle(db1, kind, Some(user), t).0 == Write(db1, kind, facts, t, count);
    WriteOverWrite(db, kind, t, facts - {f}, count - 1, facts, count);
  }

  lemma VoteThenUnvote(db: Db, kind: TargetKind, user: Id, t: Id)
    requires Counter(db, kind, t).Some? && Fact(user, t) !in Facts(db, kind)
    ensures Toggle(Toggle(db, kind, Some(user), t).0, kind, Some(user), t).0 == db
  {
    var f := Fact(user, t);
    var facts := Facts(db, kind);
    var count := Counter(db, kind, t).value;
    var db1 := Toggle(db, kind, Some(user), t).0;
    WriteUnchanged(db, kind, t);
    assert db1 == Write(db, kind, facts + {f}, t, count + 1);
    assert f in Facts(db1, kind) && Counter(db1, kind, t) == Some(count + 1);
    assert facts + {f} - {f} == facts;
    assert Toggle(db1, kind, Some(user), t).0 == Write(db1, kind, facts, t, count);
    WriteOverWrite(db, kind, t, facts + {f}, count + 1, facts, count);
  }

  /** Votes by two different actors on a target with no votes, then a repeat
      by the first: the reported counts are 1, 2 and 1. */
  lemma ThreeToggleScenario(db: Db, kind: TargetKind, b: Id, c: Id, t: Id)
    requires Reconciled(db, kind)
    requires Counter(db, kind, t) == Some(0)
    requires b != c
    ensures var (db1, r1) := Toggle(db, kind, Some(b), t);
            var (db2, r2) := Toggle(db1, kind, Some(c), t);
            var (db3, r3) := Toggle(db2, kind, Some(b), t);
            && r1 == Success(Toggled(true, 1))
            && r2 == Success(Toggled(true, 2))
            && r3 == Success(Toggled(false, 1))
  {
    var facts := Facts(db, kind);
    assert OnTarget(facts, t) == {};
  }
}
