/**
  The two tables the service reads and writes, `users` and `meals`, and the
  relational operations its handlers perform on them: point lookups
  (`where(...).first()`), a filter, an ordering, an insert and an update.
 */
module Tables {
  import opened Wrappers
  import opened Schema

  /** A row of `users`: the session token is what the guard matches on. */
  datatype User = User(id: string, sessionId: string)

  /** A row of `meals`; `date` is the stored epoch-millisecond timestamp. */
  datatype Meal = Meal(id: string, name: string, description: string, isOnDiet: bool, date: int, userId: string)

  /** The ids stored in a meals table. */
  function Ids(meals: seq<Meal>): set<string>
  {
    set i | 0 <= i < |meals| :: meals[i].id
  }

  /** No two users share a session token. */
  ghost predicate UniqueSessionIds(users: seq<User>)
  {
    forall i, j :: 0 <= i < j < |users| ==> users[i].sessionId != users[j].sessionId
  }

  /** The primary-key invariant of `meals`. */
  ghost predicate UniqueIds(meals: seq<Meal>)
  {
    forall i, j :: 0 <= i < j < |meals| ==> meals[i].id != meals[j].id
  }

  lemma IdsCons(meals: seq<Meal>)
    requires meals != []
    ensures Ids(meals) == {meals[0].id} + Ids(meals[1..])
  {
  }

  // ---------------------------------------------------------------------
  // Point lookups

  /** `knex('users').where({ session_id: sid }).first()`: a user whose
      session token is `sid`. SQL fixes no row order for `first()`; the
      model takes the first match in the sequence, which is the only match
      when tokens are unique (`FirstBySessionUnique`). */
  function FirstBySession(users: seq<User>, sid: string): (r: Option<User>)
    ensures r.None? <==> forall i :: 0 <= i < |users| ==> users[i].sessionId != sid
    ensures r.Some? ==> exists k :: 0 <= k < |users| && users[k] == r.value &&
                          (forall i :: 0 <= i < k ==> users[i].sessionId != sid)
    ensures r.Some? ==> r.value.sessionId == sid
  {
    if users == [] then None
    else if users[0].sessionId == sid then Some(users[0])
    else
      var r := FirstBySession(users[1..], sid);
      assert r.Some? ==> exists k :: 1 <= k < |users| && users[k] == r.value &&
                           (forall i :: 0 <= i < k ==> users[i].sessionId != sid) by {
        if r.Some? {
          var k :| 0 <= k < |users[1..]| && users[1..][k] == r.value &&
                   (forall i :: 0 <= i < k ==> users[1..][i].sessionId != sid);
          assert users[k + 1] == r.value;
          assert forall i :: 0 <= i < k + 1 ==> users[i].sessionId != sid by {
            forall i | 0 <= i < k + 1 ensures users[i].sessionId != sid {
              if i > 0 { assert users[i] == users[1..][i - 1]; }
            }
          }
        }
      }
      r
  }

  /** `knex('meals').where({ id }).first()`: a meal whose id is `id`;
      `None` stands for `undefined`. As for the users lookup, the model takes
      the first match in the sequence, the only one when ids are unique
      (`FindByIdUnique`). */
  function FindById(meals: seq<Meal>, id: string): (r: Option<Meal>)
    ensures r.None? <==> id !in Ids(meals)
    ensures r.Some? ==> r.value.id == id && r.value in meals
    ensures r.Some? ==> exists k :: 0 <= k < |meals| && meals[k] == r.value &&
                          (forall i :: 0 <= i < k ==> meals[i].id != id)
  {
    if meals == [] then None
    else if meals[0].id == id then Some(meals[0])
    else
      var r := FindById(meals[1..], id);
      IdsCons(meals);
      assert r.Some? ==> exists k :: 1 <= k < |meals| && meals[k] == r.value &&
                           (forall i :: 0 <= i < k ==> meals[i].id != id) by {
        if r.Some? {
          var k :| 0 <= k < |meals[1..]| && meals[1..][k] == r.value &&
                   (forall i :: 0 <= i < k ==> meals[1..][i].id != id);
          assert meals[k + 1] == r.value;
          forall i | 0 <= i < k + 1 ensures meals[i].id != id {
            if i > 0 { assert meals[i] == meals[1..][i - 1]; }
          }
        }
      }
      r
  }

  /** With unique tokens, the lookup finds exactly the user holding the
      token. */
  lemma FirstBySessionUnique(users: seq<User>, k: nat)
    requires UniqueSessionIds(users) && k < |users|
    ensures FirstBySession(users, users[k].sessionId) == Some(users[k])
  {
  }

  /** In a table with unique ids, the lookup finds exactly the row stored
      under that id. */
  lemma FindByIdUnique(meals: seq<Meal>, k: nat)
    requires UniqueIds(meals) && k < |meals|
    ensures FindById(meals, meals[k].id) == Some(meals[k])
  {
  }

  // ---------------------------------------------------------------------
  // Listing: `where({ user_id })` then `orderBy('date', 'desc')`

  /** `where({ user_id: owner })`: the rows owned by `owner`, in table order. */
  function WhereOwner(meals: seq<Meal>, owner: string): seq<Meal>
  {
    if meals == [] then []
    else
      var rest := WhereOwner(meals[1..], owner);
      if meals[0].userId == owner then [meals[0]] + rest else rest
  }

  /** The filter keeps every owned row exactly as often as it is stored,
      and nothing else. */
  lemma {:induction false} WhereOwnerCounts(meals: seq<Meal>, owner: string)
    ensures forall m :: multiset(WhereOwner(meals, owner))[m] ==
                          if m.userId == owner then multiset(meals)[m] else 0
  {
    if meals != [] {
      assert meals == [meals[0]] + meals[1..];
      WhereOwnerCounts(meals[1..], owner);
    }
  }

  /** Most recent first: dates never increase along the sequence. */
  predicate SortedByDateDesc(s: seq<Meal>)
  {
    forall i, j :: 0 <= i < j < |s| ==> s[i].date >= s[j].date
  }

  /** No row of `s` is dated after `d`. */
  predicate AllAtMost(s: seq<Meal>, d: int)
  {
    forall i :: 0 <= i < |s| ==> s[i].date <= d
  }

  lemma ConsSorted(x: Meal, s: seq<Meal>)
    requires SortedByDateDesc(s) && AllAtMost(s, x.date)
    ensures SortedByDateDesc([x] + s)
  {
  }

  lemma AtMostOfMultiset(a: seq<Meal>, b: seq<Meal>, d: int)
    requires multiset(a) == multiset(b) && AllAtMost(b, d)
    ensures AllAtMost(a, d)
  {
    forall i | 0 <= i < |a| ensures a[i].date <= d {
      assert a[i] in multiset(b);
      var j :| 0 <= j < |b| && b[j] == a[i];
    }
  }

  /** Places `m` into a date-descending sequence. */
  function InsertByDate(m: Meal, s: seq<Meal>): (r: seq<Meal>)
    requires SortedByDateDesc(s)
    ensures SortedByDateDesc(r)
    ensures multiset(r) == multiset(s) + multiset{m}
  {
    if s == [] || m.date >= s[0].date then
      ConsSorted(m, s);
      [m] + s
    else
      assert s == [s[0]] + s[1..];
      var rest := InsertByDate(m, s[1..]);
      assert AllAtMost(s[1..] + [m], s[0].date);
      assert multiset(rest) == multiset(s[1..] + [m]);
      AtMostOfMultiset(rest, s[1..] + [m], s[0].date);
      ConsSorted(s[0], rest);
      [s[0]] + rest
  }

  /** `orderBy('date', 'desc')`. SQL leaves the order of rows with equal
      dates open; this ordering picks one of the orders it allows. */
  function OrderByDateDesc(s: seq<Meal>): (r: seq<Meal>)
    ensures SortedByDateDesc(r)
    ensures multiset(r) == multiset(s)
  {
    if s == [] then []
    else
      assert s == [s[0]] + s[1..];
      InsertByDate(s[0], OrderByDateDesc(s[1..]))
  }

  /** What `GET /` lists for `owner`: every row it owns, each exactly as
      often as it is stored, no other row, most recent first. */
  function ListForOwner(meals: seq<Meal>, owner: string): (r: seq<Meal>)
    ensures SortedByDateDesc(r)
    ensures forall m :: multiset(r)[m] == if m.userId == owner then multiset(meals)[m] else 0
    ensures forall m :: m in r <==> m in meals && m.userId == owner
  {
    WhereOwnerCounts(meals, owner);
    var r := OrderByDateDesc(WhereOwner(meals, owner));
    assert forall m :: m in r <==> m in meals && m.userId == owner by {
      forall m ensures m in r <==> m in meals && m.userId == owner {
        assert m in r <==> m in multiset(r);
        assert m in meals <==> m in multiset(meals);
      }
    }
    r
  }

  // ---------------------------------------------------------------------
  // Writes

  /** The row `POST /` inserts: a fresh id, the body's fields as given, the
      timestamp derived from the date string, and the session user as owner. */
  function NewMeal(id: string, body: MealBody, owner: string, toMillis: string -> int): Meal
  {
    Meal(id, body.name, body.description, body.isOnDiet, toMillis(body.date), owner)
  }

  /** `where({ id }).update({ name, description, is_on_diet, date })`: every
      row with that id gets the four new values; nothing else changes. */
  function UpdateWhereId(meals: seq<Meal>, id: string, body: MealBody, toMillis: string -> int): (r: seq<Meal>)
    ensures |r| == |meals|
    ensures forall i :: 0 <= i < |r| ==> r[i].id == meals[i].id && r[i].userId == meals[i].userId
    ensures forall i :: 0 <= i < |r| && meals[i].id != id ==> r[i] == meals[i]
    ensures forall i :: 0 <= i < |r| && meals[i].id == id ==>
              && r[i].name == body.name && r[i].description == body.description
              && r[i].isOnDiet == body.isOnDiet && r[i].date == toMillis(body.date)
  {
    seq(|meals|, i requires 0 <= i < |meals| =>
      if meals[i].id == id
      then meals[i].(name := body.name, description := body.description,
                     isOnDiet := body.isOnDiet, date := toMillis(body.date))
      else meals[i])
  }

  // ---------------------------------------------------------------------
  // Properties of the writes

  /** Inserting a row under a fresh id keeps the ids unique. */
  lemma InsertKeepsUniqueIds(meals: seq<Meal>, m: Meal)
    requires UniqueIds(meals) && m.id !in Ids(meals)
    ensures UniqueIds(meals + [m])
    ensures Ids(meals + [m]) == Ids(meals) + {m.id}
  {
    var s := meals + [m];
    forall i, j | 0 <= i < j < |s| ensures s[i].id != s[j].id {
      if j == |meals| { assert s[i].id in Ids(meals); }
    }
    assert Ids(s) == Ids(meals) + {m.id} by {
      forall x | x in Ids(s) ensures x in Ids(meals) + {m.id} {
        var i :| 0 <= i < |s| && s[i].id == x;
        if i < |meals| { assert meals[i].id == x; }
      }
      forall x | x in Ids(meals) + {m.id} ensures x in Ids(s) {
        if x == m.id { assert s[|meals|].id == x; }
        else { var i :| 0 <= i < |meals| && meals[i].id == x; assert s[i].id == x; }
      }
    }
  }

  /** An update never touches ids, so it keeps them unique and the id set
      unchanged. */
  lemma UpdateKeepsIds(meals: seq<Meal>, id: string, body: MealBody, toMillis: string -> int)
    requires UniqueIds(meals)
    ensures UniqueIds(UpdateWhereId(meals, id, body, toMillis))
    ensures Ids(UpdateWhereId(meals, id, body, toMillis)) == Ids(meals)
  {
  }

  /** An update whose id is stored nowhere leaves the table as it was. */
  lemma UpdateMissingIsIdentity(meals: seq<Meal>, id: string, body: MealBody, toMillis: string -> int)
    requires id !in Ids(meals)
    ensures UpdateWhereId(meals, id, body, toMillis) == meals
  {
  }

  /** Filtering distributes over appending one row. */
  lemma {:induction false} WhereOwnerAppend(meals: seq<Meal>, m: Meal, owner: string)
    ensures WhereOwner(meals + [m], owner) ==
            if m.userId == owner then WhereOwner(meals, owner) + [m] else WhereOwner(meals, owner)
  {
    var t := meals + [m];
    if meals == [] {
      assert t == [m] && t[1..] == [];
    } else {
      assert t[0] == meals[0] && t[1..] == meals[1..] + [m];
      WhereOwnerAppend(meals[1..], m, owner);
      var tail := WhereOwner(meals[1..], owner);
      if meals[0].userId == owner {
        assert WhereOwner(t, owner) == [meals[0]] + WhereOwner(t[1..], owner);
        assert WhereOwner(meals, owner) == [meals[0]] + tail;
        if m.userId == owner {
          assert [meals[0]] + (tail + [m]) == ([meals[0]] + tail) + [m];
        }
      } else {
        assert WhereOwner(t, owner) == WhereOwner(t[1..], owner);
        assert WhereOwner(meals, owner) == tail;
      }
    }
  }

  /** After `POST /` stores `m` for its owner, that owner's list holds the
      same rows plus exactly one more, `m`; every other owner's list is the
      same sequence as before. */
  lemma CreateThenList(meals: seq<Meal>, m: Meal, owner: string)
    ensures owner == m.userId ==>
      multiset(ListForOwner(meals + [m], owner)) == multiset(ListForOwner(meals, owner)) + multiset{m}
    ensures owner == m.userId ==>
      |ListForOwner(meals + [m], owner)| == |ListForOwner(meals, owner)| + 1
    ensures owner != m.userId ==> ListForOwner(meals + [m], owner) == ListForOwner(meals, owner)
  {
    WhereOwnerAppend(meals, m, owner);
    var before := WhereOwner(meals, owner);
    if owner == m.userId {
      assert multiset(WhereOwner(meals + [m], owner)) == multiset(before) + multiset{m};
      assert |multiset(ListForOwner(meals + [m], owner))| == |multiset(ListForOwner(meals, owner))| + 1;
    }
  }

  /** A table holding one row lists that row for its owner. */
  lemma ListOfOneRow(m: Meal)
    ensures ListForOwner([m], m.userId) == [m]
  {
  }

  /** Looking up a row after appending it under a fresh id finds that row. */
  lemma {:induction false} FindByIdAppend(meals: seq<Meal>, m: Meal, id: string)
    ensures FindById(meals + [m], id) ==
            if id in Ids(meals) then FindById(meals, id)
            else if m.id == id then Some(m) else None
  {
    if meals == [] {
      assert [m][1..] == [];
    } else {
      assert (meals + [m])[1..] == meals[1..] + [m];
      IdsCons(meals);
      FindByIdAppend(meals[1..], m, id);
    }
  }

  /** Round trip of create and get-by-id: the row stored for a body is found
      under its new id and holds the body's fields as supplied. */
  lemma CreateThenGet(meals: seq<Meal>, id: string, body: MealBody, owner: string, toMillis: string -> int)
    requires id !in Ids(meals)
    ensures var got := FindById(meals + [NewMeal(id, body, owner, toMillis)], id);
      && got.Some? && got.value.id == id && got.value.userId == owner
      && got.value.name == body.name && got.value.description == body.description
      && got.value.isOnDiet == body.isOnDiet && got.value.date == toMillis(body.date)
  {
    FindByIdAppend(meals, NewMeal(id, body, owner, toMillis), id);
  }

  /** Round trip of update and get-by-id: after updating a stored id, the
      lookup finds the new field values under the old id and owner. */
  lemma UpdateThenGet(meals: seq<Meal>, id: string, body: MealBody, toMillis: string -> int)
    requires id in Ids(meals)
    ensures var old_ := FindById(meals, id);
      var got := FindById(UpdateWhereId(meals, id, body, toMillis), id);
      && old_.Some? && got.Some?
      && got.value == old_.value.(name := body.name, description := body.description,
                                  isOnDiet := body.isOnDiet, date := toMillis(body.date))
  {
  }

  /** An update never moves a row to another owner, so every owner's list
      keeps its length. */
  lemma {:induction false} UpdateKeepsListSizes(meals: seq<Meal>, id: string, body: MealBody,
                                              toMillis: string -> int, owner: string)
    ensures |WhereOwner(UpdateWhereId(meals, id, body, toMillis), owner)| == |WhereOwner(meals, owner)|
  {
    if meals != [] {
      var r := UpdateWhereId(meals, id, body, toMillis);
      assert r[1..] == UpdateWhereId(meals[1..], id, body, toMillis);
      UpdateKeepsListSizes(meals[1..], id, body, toMillis, owner);
    }
  }

  // ---------------------------------------------------------------------
  // The store

  /** The database the handlers share: both tables, updated in place. */
  class Database {
    var users: seq<User>
    var meals: seq<Meal>

    ghost predicate Valid()
      reads this
    {
      UniqueSessionIds(users) && UniqueIds(meals)
    }

    constructor (users0: seq<User>, meals0: seq<Meal>)
      requires UniqueSessionIds(users0) && UniqueIds(meals0)
      ensures Valid() && users == users0 && meals == meals0
    {
      users := users0;
      meals := meals0;
    }

    /** `knex('meals').insert(m)`, under a fresh primary key. */
    method Insert(m: Meal)
      requires Valid() && m.id !in Ids(meals)
      modifies this
      ensures Valid()
      ensures meals == old(meals) + [m] && users == old(users)
      ensures Ids(meals) == old(Ids(meals)) + {m.id}
    {
      InsertKeepsUniqueIds(meals, m);
      meals := meals + [m];
    }

    /** `knex('meals').where({ id }).update(...)` with the four body fields. */
    method UpdateById(id: string, body: MealBody, toMillis: string -> int)
      requires Valid()
      modifies this
      ensures Valid()
      ensures meals == UpdateWhereId(old(meals), id, body, toMillis) && users == old(users)
      ensures Ids(meals) == old(Ids(meals))
    {
      UpdateKeepsIds(meals, id, body, toMillis);
      meals := UpdateWhereId(meals, id, body, toMillis);
    }
  }
}
