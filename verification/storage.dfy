/**
 * `MemStorage`: the server's in-memory store of schools and users. Each table is a
 * JavaScript `Map` from id to record, which lists its values in insertion order; here that
 * is a map together with the sequence of its keys in the order they were inserted.
 */
module Storage {
  import opened Wrappers
  import opened Records

  /** `Array.from(m.values())` for a map whose keys were inserted in the order `order`. */
  function Values<V>(order: seq<int>, m: map<int, V>): (r: seq<V>)
    requires forall i :: 0 <= i < |order| ==> order[i] in m
    ensures |r| == |order|
    ensures forall i :: 0 <= i < |order| ==> r[i] == m[order[i]]
  {
    if order == [] then [] else [m[order[0]]] + Values(order[1..], m)
  }

  /** The school the store makes of a dataset entry: unvisited, without quota, no comments. */
  function SeedSchool(d: SchoolData, id: int): School {
    School(id, d.name, d.address, d.phone, d.email, false, false, "")
  }

  /** The schools seeding `data` creates when the id counter starts at `firstId`. */
  function SeededSchools(data: seq<SchoolData>, firstId: int): (r: seq<School>)
    ensures |r| == |data|
    ensures forall i :: 0 <= i < |data| ==>
      && r[i].id == firstId + i
      && r[i].name == data[i].name && r[i].address == data[i].address
      && r[i].phone == data[i].phone && r[i].email == data[i].email
      && !r[i].isVisited && !r[i].hasQuota && r[i].comments == ""
  {
    seq(|data|, i requires 0 <= i < |data| => SeedSchool(data[i], firstId + i))
  }

  /** `{ ...school, ...updates }` for a patch holding some of the three editable fields. */
  function ApplyPatch(s: School, p: SchoolPatch): (r: School)
    ensures r.id == s.id && r.name == s.name && r.address == s.address
    ensures r.phone == s.phone && r.email == s.email
    ensures p.isVisited.Some? ==> r.isVisited == p.isVisited.value
    ensures p.isVisited.None? ==> r.isVisited == s.isVisited
    ensures p.hasQuota.Some? ==> r.hasQuota == p.hasQuota.value
    ensures p.hasQuota.None? ==> r.hasQuota == s.hasQuota
    ensures p.comments.Some? ==> r.comments == p.comments.value
    ensures p.comments.None? ==> r.comments == s.comments
  {
    s.(isVisited := if p.isVisited.Some? then p.isVisited.value else s.isVisited,
       hasQuota := if p.hasQuota.Some? then p.hasQuota.value else s.hasQuota,
       comments := if p.comments.Some? then p.comments.value else s.comments)
  }

  /** Applying the same patch twice is applying it once. */
  lemma ApplyPatchIdempotent(s: School, p: SchoolPatch)
    ensures ApplyPatch(ApplyPatch(s, p), p) == ApplyPatch(s, p)
  {
  }

  /** A patch that carries only `comments` changes the comments and nothing else. */
  lemma CommentsPatchOnly(s: School, c: string)
    ensures ApplyPatch(s, SchoolPatch(None, None, Some(c))) == s.(comments := c)
  {
  }

  /** Inserting a new key at the end of a map adds its value at the end of the listing. */
  lemma ValuesAppend<V>(order: seq<int>, m: map<int, V>, k: int, v: V)
    requires forall i :: 0 <= i < |order| ==> order[i] in m
    requires k !in order
    ensures Values(order + [k], m[k := v]) == Values(order, m) + [v]
  {
    var a, b := Values(order + [k], m[k := v]), Values(order, m) + [v];
    forall i | 0 <= i < |a| ensures a[i] == b[i] {
      if i < |order| {
        assert (order + [k])[i] == order[i];
      }
    }
  }

  /** Seeding one more entry adds one more school at the end. */
  lemma SeededSchoolsSnoc(data: seq<SchoolData>, n: nat, firstId: int)
    requires n < |data|
    ensures SeededSchools(data[..n + 1], firstId)
         == SeededSchools(data[..n], firstId) + [SeedSchool(data[n], firstId + n)]
  {
    var a := SeededSchools(data[..n + 1], firstId);
    var b := SeededSchools(data[..n], firstId) + [SeedSchool(data[n], firstId + n)];
    forall i | 0 <= i < |a| ensures a[i] == b[i] {
      assert data[..n + 1][i] == data[i];
      if i < n {
        assert data[..n][i] == data[i];
      }
    }
  }

  /** `order` lists every key of `m` exactly once, in increasing order. */
  ghost predicate KeyOrder<V>(order: seq<int>, m: map<int, V>) {
    && (forall i :: 0 <= i < |order| ==> order[i] in m)
    && (forall k :: k in m ==> k in order)
    && (forall i, j :: 0 <= i < j < |order| ==> order[i] < order[j])
  }

  function SchoolId(s: School): int { s.id }

  function UserId(u: User): int { u.id }

  /**
   * One table of the store: `order` is a key order of `m`, every record is stored under its
   * own id, and every id lies in [1, next), `next` being the counter's value.
   */
  ghost predicate Table<R>(order: seq<int>, m: map<int, R>, next: int, idOf: R -> int) {
    && 1 <= next
    && KeyOrder(order, m)
    && (forall k :: k in m ==> idOf(m[k]) == k && 1 <= k < next)
  }

  /**
   * Storing a record under the counter's value and advancing the counter keeps the table
   * well formed and appends the record to the listing.
   */
  lemma TableInsert<R>(order: seq<int>, m: map<int, R>, next: int, idOf: R -> int, r: R)
    requires Table(order, m, next, idOf)
    requires idOf(r) == next
    ensures Table(order + [next], m[next := r], next + 1, idOf)
    ensures Values(order + [next], m[next := r]) == Values(order, m) + [r]
  {
    KeyOrderAppend(order, m, next, r);
    ValuesAppend(order, m, next, r);
  }

  /** Inserting a key larger than every present key keeps the key order. */
  lemma KeyOrderAppend<V>(order: seq<int>, m: map<int, V>, k: int, v: V)
    requires KeyOrder(order, m)
    requires forall j :: j in m ==> j < k
    ensures KeyOrder(order + [k], m[k := v])
  {
    var o := order + [k];
    forall i, j | 0 <= i < j < |o| ensures o[i] < o[j] {
      assert order[i] in m;
    }
  }

  class MemStorage {
    var users: map<int, User>
    var userOrder: seq<int>
    var schools: map<int, School>
    var schoolOrder: seq<int>
    var currentUserId: int
    var currentSchoolId: int

    /**
     * The order sequences list each key once, in increasing order; each record is stored
     * under its own id; every id is below the counter that handed it out.
     */
    ghost predicate Valid()
      reads this
    {
      && Table(schoolOrder, schools, currentSchoolId, SchoolId)
      && Table(userOrder, users, currentUserId, UserId)
    }

    /** The schools as `getAllSchools` lists them. */
    ghost function AllSchools(): seq<School>
      reads this
      requires Valid()
    {
      Values(schoolOrder, schools)
    }

    /** A store seeded from `data`: ids 1..|data| in input order, no users yet. */
    constructor (data: seq<SchoolData>)
      ensures Valid()
      ensures AllSchools() == SeededSchools(data, 1)
      ensures currentSchoolId == |data| + 1
      ensures users == map[] && userOrder == [] && currentUserId == 1
    {
      users := map[];
      userOrder := [];
      schools := map[];
      schoolOrder := [];
      currentUserId := 1;
      currentSchoolId := 1;
      new;
      InitializeSchools(data);
    }

    /** `initializeSchools`: insert one seeded school per entry, taking ids from the counter. */
    method InitializeSchools(data: seq<SchoolData>)
      requires Valid()
      modifies this`schools, this`schoolOrder, this`currentSchoolId
      ensures Valid()
      ensures currentSchoolId == old(currentSchoolId) + |data|
      ensures AllSchools() == old(AllSchools()) + SeededSchools(data, old(currentSchoolId))
    {
      ghost var before, firstId := AllSchools(), currentSchoolId;
      for i := 0 to |data|
        invariant Valid()
        invariant currentSchoolId == firstId + i
        invariant AllSchools() == before + SeededSchools(data[..i], firstId)
      {
        AddSeededSchool(data[i]);
        SeededSchoolsSnoc(data, i, firstId);
        assert AllSchools() == before + (SeededSchools(data[..i], firstId) + [SeedSchool(data[i], firstId + i)]);
      }
      assert data[..|data|] == data;
    }

    /** The body of the seeding loop: take the next id and store the seeded school under it. */
    method AddSeededSchool(d: SchoolData)
      requires Valid()
      modifies this`schools, this`schoolOrder, this`currentSchoolId
      ensures Valid()
      ensures currentSchoolId == old(currentSchoolId) + 1
      ensures AllSchools() == old(AllSchools()) + [SeedSchool(d, old(currentSchoolId))]
    {
      var school := SeedSchool(d, currentSchoolId);
      currentSchoolId := currentSchoolId + 1;
      TableInsert(schoolOrder, schools, school.id, SchoolId, school);
      schools := schools[school.id := school];
      schoolOrder := schoolOrder + [school.id];
    }

    /** `getUser`: the user stored under `id`, if any. */
    method GetUser(id: int) returns (r: Option<User>)
      requires Valid()
      ensures r.Some? <==> id in users
      ensures r.Some? ==> r.value == users[id] && r.value.id == id
    {
      r := if id in users then Some(users[id]) else None;
    }

    /** `getUserByUsername`: the first user, in insertion order, with that username. */
    method GetUserByUsername(username: string) returns (r: Option<User>)
      requires Valid()
      ensures r.None? <==> forall k :: k in users ==> users[k].username != username
      ensures r.Some? ==>
        exists i :: 0 <= i < |userOrder| && r.value == users[userOrder[i]] && r.value.username == username &&
          forall j :: 0 <= j < i ==> users[userOrder[j]].username != username
    {
      var values := Values(userOrder, users);
      var i := 0;
      while i < |values|
        invariant 0 <= i <= |values|
        invariant forall j :: 0 <= j < i ==> values[j].username != username
      {
        if values[i].username == username {
          return Some(values[i]);
        }
        i := i + 1;
      }
      return None;
    }

    /** `createUser`: store the user under the next id and advance the counter. */
    method CreateUser(insertUser: InsertUser) returns (u: User)
      requires Valid()
      modifies this`users, this`userOrder, this`currentUserId
      ensures Valid()
      ensures u == User(old(currentUserId), insertUser.username, insertUser.password)
      ensures u.id !in old(users)
      ensures currentUserId == old(currentUserId) + 1
      ensures users == old(users)[u.id := u] && userOrder == old(userOrder) + [u.id]
    {
      var id := currentUserId;
      TableInsert(userOrder, users, id, UserId, User(id, insertUser.username, insertUser.password));
      currentUserId := currentUserId + 1;
      u := User(id, insertUser.username, insertUser.password);
      users := users[id := u];
      userOrder := userOrder + [id];
    }

    /** `getAllSchools`: every stored school, in insertion order, which is increasing id order. */
    method GetAllSchools() returns (r: seq<School>)
      requires Valid()
      ensures |r| == |schoolOrder| == |schools|
      ensures forall i :: 0 <= i < |r| ==> r[i] == schools[schoolOrder[i]]
      ensures forall i, j :: 0 <= i < j < |r| ==> r[i].id < r[j].id
      ensures forall s: School :: s in r <==> s.id in schools && schools[s.id] == s
    {
      r := Values(schoolOrder, schools);
      KeyOrderCount(schoolOrder, schools);
      forall s: School | s.id in schools && schools[s.id] == s ensures s in r {
        var i :| 0 <= i < |schoolOrder| && schoolOrder[i] == s.id;
        assert r[i] == s;
      }
    }

    /**
     * `updateSchool`: an unknown id changes nothing and gives nothing back; a known id gets
     * the patch applied in place, keeps its position, and the stored record is returned.
     */
    method UpdateSchool(id: int, patch: SchoolPatch) returns (r: Option<School>)
      requires Valid()
      modifies this`schools
      ensures Valid()
      ensures id !in old(schools) ==> r.None? && schools == old(schools)
      ensures id in old(schools) ==> r == Some(ApplyPatch(old(schools[id]), patch))
      ensures id in old(schools) ==> schools == old(schools)[id := r.value]
      ensures schools.Keys == old(schools.Keys)
      ensures |AllSchools()| == |old(AllSchools())|
      ensures forall i :: 0 <= i < |AllSchools()| ==>
        AllSchools()[i] == if old(AllSchools())[i].id == id then r.value else old(AllSchools())[i]
    {
      if id !in schools {
        return None;
      }
      var updated := ApplyPatch(schools[id], patch);
      schools := schools[id := updated];
      r := Some(updated);
    }
  }

  /** A key order of `m` has one entry per key. */
  lemma KeyOrderCount<V>(order: seq<int>, m: map<int, V>)
    requires KeyOrder(order, m)
    ensures |order| == |m|
  {
    IncreasingSetSize(order);
    var keys := set x | x in order;
    forall x ensures x in m.Keys <==> x in keys {
      if x in order {
        var i :| 0 <= i < |order| && order[i] == x;
      }
    }
    assert m.Keys == keys;
  }

  /** A strictly increasing sequence has as many distinct elements as entries. */
  lemma {:induction false} IncreasingSetSize(s: seq<int>)
    requires forall i, j :: 0 <= i < j < |s| ==> s[i] < s[j]
    ensures |(set x | x in s)| == |s|
  {
    if s != [] {
      IncreasingSetSize(s[1..]);
      assert (set x | x in s) == (set x | x in s[1..]) + {s[0]};
      assert s[0] !in (set x | x in s[1..]);
    }
  }
}
