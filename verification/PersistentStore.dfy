/**
 PersistentStore over a transactional table. The database is an environment:
 each statement takes its outcome from a plan (a plan that has run out means
 statements that work), and a failing statement may roll the open transaction
 back by itself.
*/
module PersistentStore {
  import opened Basics

  type Table = map<string, string>

  datatype Exec = Works | Fails | FailsRollingBack

  /** How a query goes: it may fail before its first row or after its last. */
  datatype Query = Runs | FailsAtOnce | FailsAfterRows

  predicate AllWork(plan: seq<Exec>) {
    forall i :: 0 <= i < |plan| ==> plan[i].Works?
  }

  /** What becomes of the n-th of the coming statements. */
  function Outcome(plan: seq<Exec>, n: nat): Exec {
    if n < |plan| then plan[n] else Works
  }

  /** The first of the coming n statements that does not work. */
  function FirstFailure(plan: seq<Exec>, n: nat): (r: Option<nat>)
    ensures IsFirstFailure(plan, n, r)
  {
    if n == 0 || plan == [] then None
    else if !plan[0].Works? then Some(0)
    else
      var r := FirstFailure(plan[1..], n - 1);
      assert forall i :: 0 < i < n ==> Outcome(plan, i) == Outcome(plan[1..], i - 1);
      if r.Some? then Some(r.value + 1) else None
  }

  ghost predicate IsFirstFailure(plan: seq<Exec>, n: nat, failure: Option<nat>) {
    && (failure.Some? ==> failure.value < n && !Outcome(plan, failure.value).Works?)
    && (forall i :: 0 <= i < n && (failure.Some? ==> i < failure.value) ==> Outcome(plan, i).Works?)
  }

  /** The plan once n statements have run. */
  function After(plan: seq<Exec>, n: nat): seq<Exec> {
    if n <= |plan| then plan[n..] else []
  }

  lemma AfterNext(plan: seq<Exec>, n: nat)
    ensures Outcome(After(plan, n), 0) == Outcome(plan, n) && After(After(plan, n), 1) == After(plan, n + 1)
  {}

  class Database {
    var open: bool
    var committed: Table
    var tx: Option<Table>      // the open transaction's view of the table
    var plan: seq<Exec>

    constructor (committed: Table, plan: seq<Exec>)
      ensures open && this.committed == committed && tx == None && this.plan == plan
    {
      open, this.committed, tx, this.plan := true, committed, None, plan;
    }

    /** What queries see. */
    function View(): Table
      reads this
    {
      if tx.Some? then tx.value else committed
    }

    /** The next statement's outcome. */
    function Next(): Exec
      reads this
    {
      if open then Outcome(plan, 0) else Fails
    }

    method Step() returns (e: Exec)
      modifies this`plan
      ensures e == old(Next()) && plan == After(old(plan), 1)
    {
      e := Next();
      if plan != [] {
        plan := plan[1..];
      }
    }

    /** BEGIN IMMEDIATE TRANSACTION; transactions do not nest. */
    method Begin() returns (ok: bool)
      modifies this`plan, this`tx
      ensures plan == After(old(plan), 1)
      ensures ok <==> old(Next()).Works? && old(tx).None?
      ensures tx == if ok then Some(committed) else old(tx)
    {
      var e := Step();
      ok := e.Works? && tx.None?;
      if ok {
        tx := Some(committed);
      }
    }

    /** A statement that changes the table to `after`, inside the open transaction or committing by itself. */
    method Change(after: Table) returns (ok: bool)
      modifies this
      ensures open == old(open) && plan == After(old(plan), 1)
      ensures ok <==> old(Next()).Works?
      ensures ok ==> View() == after && (tx.Some? <==> old(tx).Some?) && (tx.Some? ==> committed == old(committed))
      ensures !ok ==> committed == old(committed) && tx == if old(Next()).Fails? then old(tx) else None
    {
      var e := Step();
      match e
      case Works =>
        if tx.Some? {
          tx := Some(after);
        } else {
          committed := after;
        }
        return true;
      case Fails => return false;
      case FailsRollingBack =>
        tx := None;
        return false;
    }

    /** SELECT of one key: the rows handed to the callback, and whether the query ended well. The key is unique. */
    method Select(key: string, query: Query) returns (ok: bool, rows: seq<string>)
      ensures ok <==> open && query.Runs?
      ensures rows == if open && !query.FailsAtOnce? && key in View() then [View()[key]] else []
    {
      ok := open && query.Runs?;
      rows := if open && !query.FailsAtOnce? && key in View() then [View()[key]] else [];
    }

    method Commit() returns (ok: bool)
      modifies this
      ensures open == old(open) && plan == After(old(plan), 1)
      ensures ok <==> old(Next()).Works? && old(tx).Some?
      ensures ok ==> committed == old(View()) && tx == None
      ensures !ok ==> committed == old(committed) && tx == if old(Next()).FailsRollingBack? then None else old(tx)
    {
      var e := Step();
      ok := e.Works? && tx.Some?;
      if ok {
        committed := tx.value;
        tx := None;
      } else if e.FailsRollingBack? {
        tx := None;
      }
    }

    method Rollback() returns (ok: bool)
      modifies this`plan, this`tx
      ensures plan == After(old(plan), 1)
      ensures ok <==> old(Next()).Works? && old(tx).Some?
      ensures tx == if ok then None else old(tx)
    {
      var e := Step();
      ok := e.Works? && tx.Some?;
      if ok {
        tx := None;
      }
    }
  }

  /** INSERT OR REPLACE of each pair in turn. */
  function PutPairs(t: Table, pairs: seq<(string, string)>): Table
    decreases |pairs|
  {
    if pairs == [] then t
    else PutPairs(t, pairs[..|pairs| - 1])[pairs[|pairs| - 1].0 := pairs[|pairs| - 1].1]
  }

  lemma PutOneMore(t: Table, pairs: seq<(string, string)>, i: nat)
    requires i < |pairs|
    ensures PutPairs(t, pairs[..i + 1]) == PutPairs(t, pairs[..i])[pairs[i].0 := pairs[i].1]
  {
    assert pairs[..i + 1][..i] == pairs[..i];
  }

  /** Of several pairs with one key the last wins. */
  lemma {:induction false} LastPairWins(t: Table, pairs: seq<(string, string)>, i: nat)
    requires i < |pairs| && forall j :: i < j < |pairs| ==> pairs[j].0 != pairs[i].0
    ensures pairs[i].0 in PutPairs(t, pairs) && PutPairs(t, pairs)[pairs[i].0] == pairs[i].1
    decreases |pairs|
  {
    if i < |pairs| - 1 {
      LastPairWins(t, pairs[..|pairs| - 1], i);
    }
  }

  /** Keys not mentioned keep what they had. */
  lemma {:induction false} OtherKeysKept(t: Table, pairs: seq<(string, string)>, k: string)
    requires forall i :: 0 <= i < |pairs| ==> pairs[i].0 != k
    ensures k in PutPairs(t, pairs) <==> k in t
    ensures k in t ==> PutPairs(t, pairs)[k] == t[k]
    decreases |pairs|
  {
    if pairs != [] {
      OtherKeysKept(t, pairs[..|pairs| - 1], k);
    }
  }

  /** Putting pairs overlays the old table with the pairs put into an empty one. */
  lemma {:induction false} PutPairsOverlay(t: Table, pairs: seq<(string, string)>)
    ensures PutPairs(t, pairs) == t + PutPairs(map[], pairs)
    decreases |pairs|
  {
    if pairs != [] {
      PutPairsOverlay(t, pairs[..|pairs| - 1]);
    }
  }

  /** The statement failed inside the transaction without ending it, and so did the ROLLBACK after it. */
  predicate LeftOpen(plan: seq<Exec>, failure: Option<nat>) {
    && failure.Some? && failure.value > 0
    && Outcome(plan, failure.value).Fails? && !Outcome(plan, failure.value + 1).Works?
  }

  /** After statement n of the plan has failed there has been one more, the ROLLBACK. */
  ghost predicate GivenUp(plan: seq<Exec>, n: nat, rest: seq<Exec>, tx: Option<Table>) {
    rest == After(plan, n + 2) && (tx.Some? <==> Outcome(plan, n).Fails? && !Outcome(plan, n + 1).Works?)
  }

  class PersistentStore {
    const db: Database

    constructor (db: Database)
      ensures this.db == db
    {
      this.db := db;
    }

    method Put(key: string, value: string) returns (ok: bool)
      modifies db
      ensures db.open == old(db.open) && db.plan == After(old(db.plan), 1)
      ensures ok <==> old(db.Next()).Works?
      ensures ok ==> db.View() == old(db.View())[key := value] && (db.tx.Some? <==> old(db.tx).Some?)
                     && (db.tx.Some? ==> db.committed == old(db.committed))
      ensures !ok ==> db.committed == old(db.committed) && db.tx == if old(db.Next()).Fails? then old(db.tx) else None
    {
      ok := db.Change(db.View()[key := value]);
    }

    /**
     All or nothing, whichever statement fails. The statements are BEGIN, the
     puts and COMMIT; true exactly when all of them work, and then every pair has
     been put, in order. False leaves the committed table as it was. A failing
     put or COMMIT is followed by ROLLBACK, so a transaction of this call stays
     open exactly if the failing statement did not end it by itself and that
     ROLLBACK failed too.
    */
    method PutAll(values: seq<(string, string)>) returns (ok: bool)
      modifies db
      ensures var failure := FirstFailure(old(db.plan), |values| + 2);
              && (ok <==> old(db.open) && old(db.tx) == None && failure.None?)
              && (old(db.open) && old(db.tx) == None && failure.Some? && failure.value > 0 ==>
                    db.plan == After(old(db.plan), failure.value + 2))
              && (old(db.tx) == None ==> (db.tx.Some? <==> old(db.open) && LeftOpen(old(db.plan), failure)))
      ensures ok ==> db.tx == None && db.committed == PutPairs(old(db.committed), values)
      ensures !ok ==> db.committed == old(db.committed)
      ensures old(db.tx).Some? ==> db.tx == old(db.tx)
    {
      ghost var plan, failure := db.plan, FirstFailure(db.plan, |values| + 2);
      assert After(plan, 0) == plan;
      ok := db.Begin();
      if !ok {
        return;
      }
      ok := PutEach(values, plan, failure);
      if !ok {
        return;
      }
      AfterNext(plan, |values| + 1);
      ok := db.Commit();
      if !ok {
        AfterNext(plan, |values| + 2);
        var rolledBack := db.Rollback();
        assert GivenUp(plan, |values| + 1, db.plan, db.tx);
      }
    }

    /** The loop of putAll, after BEGIN has worked as the first statement of this plan. */
    method PutEach(values: seq<(string, string)>, ghost plan: seq<Exec>, ghost failure: Option<nat>) returns (ok: bool)
      requires db.open && db.tx == Some(db.committed) && db.plan == After(plan, 1)
      requires IsFirstFailure(plan, |values| + 2, failure) && failure != Some(0)
      modifies db
      ensures db.open && db.committed == old(db.committed)
      ensures ok ==> db.tx == Some(PutPairs(db.committed, values)) && db.plan == After(plan, |values| + 1)
      ensures ok <==> failure.None? || failure.value == |values| + 1
      ensures !ok ==> GivenUp(plan, failure.value, db.plan, db.tx)
    {
      var i := 0;
      while i < |values|
        invariant 0 <= i <= |values| && db.open && db.committed == old(db.committed)
        invariant db.tx == Some(PutPairs(old(db.committed), values[..i]))
        invariant db.plan == After(plan, i + 1) && (failure.Some? ==> failure.value > i)
      {
        ok := PutOrGiveUp(values[i], plan, i + 1);
        if !ok {
          assert failure == Some(i + 1);
          return;
        }
        PutOneMore(old(db.committed), values, i);
        i := i + 1;
      }
      assert values[..i] == values;
      return true;
    }

    /** One turn of it, after n statements of the plan. */
    method PutOrGiveUp(pair: (string, string), ghost plan: seq<Exec>, n: nat) returns (ok: bool)
      requires db.open && db.tx.Some? && db.plan == After(plan, n)
      modifies db
      ensures db.open && db.committed == old(db.committed) && (ok <==> Outcome(plan, n).Works?)
      ensures ok ==> db.plan == After(plan, n + 1) && db.tx == Some(old(db.tx).value[pair.0 := pair.1])
      ensures !ok ==> GivenUp(plan, n, db.plan, db.tx)
    {
      AfterNext(plan, n);
      AfterNext(plan, n + 1);
      ok := Put(pair.0, pair.1);
      if !ok {
        var rolledBack := db.Rollback();
      }
    }

    /**
     A value is returned exactly if the key is stored and the query ends well,
     even if it had delivered the row before failing.
    */
    method Get(key: string, query: Query) returns (r: Option<string>)
      ensures r.Some? <==> key in db.View() && db.open && query.Runs?
      ensures r.Some? ==> r.value == db.View()[key]
    {
      var result: Option<string> := None;
      var found := false;
      var ok, rows := db.Select(key, query);
      for i := 0 to |rows|
        invariant found == result.Some? == (i > 0) && (found ==> result.value == db.View()[key])
      {
        result := Some(rows[i]);
        found := true;
      }
      return if ok && found then result else None;
    }

    /** True exactly if Get would return a value. */
    method Has(key: string, query: Query) returns (r: bool)
      ensures r <==> key in db.View() && db.open && query.Runs?
    {
      var found := false;
      var ok, rows := db.Select(key, query);
      for i := 0 to |rows|
        invariant found == (i > 0)
      {
        found := true;
      }
      return ok && found;
    }

    method Remove(key: string) returns (ok: bool)
      modifies db
      ensures ok ==> db.View() == old(db.View()) - {key}
      ensures !ok ==> db.committed == old(db.committed)
      ensures ok <==> old(db.Next()).Works?
    {
      ok := db.Change(db.View() - {key});
    }

    method Clear() returns (ok: bool)
      modifies db
      ensures ok ==> db.View() == map[]
      ensures !ok ==> db.committed == old(db.committed)
      ensures ok <==> old(db.Next()).Works?
    {
      ok := db.Change(map[]);
    }
  }
}
