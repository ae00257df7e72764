/**
 * The seeding script (backend/scripts/seed_users.py): on an empty users
 * table, create the family accounts and make everyone follow everyone else.
 */
module Seed {
  import opened Wrappers
  import opened Query
  import opened Schema

  /** One entry of `users_data`. */
  datatype SeedUser = SeedUser(username: string, password: string, displayName: string, theme: ThemeType)

  const UsersData: seq<SeedUser> := [
    SeedUser("uncle_paul", "bachaboard123", "Uncle Paul", Neutral),
    SeedUser("niece_lily", "kitty2024", "Lily", HelloKitty),
    SeedUser("nephew_max", "pikachu2024", "Max", Pokemon)
  ]

  /** The row created for `d`, with primary key `id` and password hashed by `hash`. */
  function SeededUser(d: SeedUser, id: int, hash: string -> string): User
  {
    User(id, d.username, hash(d.password), d.displayName, d.theme, None)
  }

  /** The edges `u → o` for every `o` of `others` with a different id, in order. */
  function Row(u: int, others: seq<int>): seq<Edge>
  {
    if others == [] then []
    else Row(u, others[..|others| - 1]) + (if others[|others| - 1] != u then [Edge(u, others[|others| - 1])] else [])
  }

  /** The rows of every `u` in `us`, in order: the edges the nested loop appends. */
  function AllPairs(us: seq<int>, all: seq<int>): seq<Edge>
  {
    if us == [] then [] else AllPairs(us[..|us| - 1], all) + Row(us[|us| - 1], all)
  }

  lemma {:induction false} RowMembers(u: int, others: seq<int>)
    ensures forall e :: e in Row(u, others) <==> e.follower == u && e.followed in others && e.followed != u
  {
    if others != [] {
      var init := others[..|others| - 1];
      RowMembers(u, init);
      assert others == init + [others[|others| - 1]];
    }
  }

  /** Everyone in `us` follows everyone in `all` except itself, and nothing else is followed. */
  lemma {:induction false} AllPairsMembers(us: seq<int>, all: seq<int>)
    ensures forall e :: e in AllPairs(us, all) <==> e.follower in us && e.followed in all && e.follower != e.followed
  {
    if us != [] {
      var init := us[..|us| - 1];
      AllPairsMembers(init, all);
      RowMembers(us[|us| - 1], all);
      assert us == init + [us[|us| - 1]];
    }
  }

  /** No seeded user follows itself. */
  lemma NoSelfFollowAfterSeed(ids: seq<int>)
    ensures NoSelfFollows(AllPairs(ids, ids))
  {
    AllPairsMembers(ids, ids);
  }

  lemma {:induction false} RowSize(u: int, others: seq<int>)
    requires NoDup(others)
    ensures |Row(u, others)| == |others| - (if u in others then 1 else 0)
  {
    if others != [] {
      var init := others[..|others| - 1];
      assert others == init + [others[|others| - 1]];
      assert NoDup(init);
      RowSize(u, init);
    }
  }

  /** A sequence without repeats, followed by one sharing no element with it, has no repeats. */
  lemma NoDupConcat<T>(a: seq<T>, b: seq<T>)
    requires NoDup(a) && NoDup(b)
    requires forall x :: x in a ==> x !in b
    ensures NoDup(a + b)
  {
    var s := a + b;
    forall i, j | 0 <= i < j < |s| ensures s[i] != s[j] {
      if i < |a| && j >= |a| {
        assert s[i] in a && s[j] == b[j - |a|];
      }
    }
  }

  lemma {:induction false} RowNoDup(u: int, others: seq<int>)
    requires NoDup(others)
    ensures NoDup(Row(u, others))
  {
    if others != [] {
      var init, last := others[..|others| - 1], others[|others| - 1];
      assert others == init + [last];
      assert NoDup(init);
      RowNoDup(u, init);
      RowMembers(u, init);
      NoDupConcat(Row(u, init), if last != u then [Edge(u, last)] else []);
    }
  }

  /** The seeded follow table has no edge twice. */
  lemma {:induction false} AllPairsNoDup(us: seq<int>, all: seq<int>)
    requires NoDup(us) && NoDup(all)
    ensures NoDup(AllPairs(us, all))
  {
    if us != [] {
      var init, last := us[..|us| - 1], us[|us| - 1];
      assert us == init + [last];
      assert NoDup(init);
      AllPairsNoDup(init, all);
      RowNoDup(last, all);
      AllPairsMembers(init, all);
      RowMembers(last, all);
      NoDupConcat(AllPairs(init, all), Row(last, all));
    }
  }

  lemma {:induction false} RowFollowing(u: int, others: seq<int>, x: int)
    ensures Following(Row(u, others), x) == if x == u then Following(Row(u, others), u) else []
    ensures |Following(Row(u, others), u)| == |Row(u, others)|
  {
    if others != [] {
      var init, last := others[..|others| - 1], others[|others| - 1];
      RowFollowing(u, init, x);
      var tail := if last != u then [Edge(u, last)] else [];
      FollowingConcat(Row(u, init), tail, u);
      FollowingConcat(Row(u, init), tail, x);
    }
  }

  lemma {:induction false} RowFollowers(u: int, others: seq<int>, x: int)
    requires NoDup(others)
    ensures |Followers(Row(u, others), x)| == if x != u && x in others then 1 else 0
  {
    if others != [] {
      var init, last := others[..|others| - 1], others[|others| - 1];
      assert others == init + [last];
      assert NoDup(init);
      RowFollowers(u, init, x);
      var tail := if last != u then [Edge(u, last)] else [];
      FollowersConcat(Row(u, init), tail, x);
      assert last !in init;
    }
  }

  lemma {:induction false} FollowingConcat(a: seq<Edge>, b: seq<Edge>, u: int)
    ensures Following(a + b, u) == Following(a, u) + Following(b, u)
  {
    if a == [] {
      assert a + b == b;
    } else {
      assert (a + b)[1..] == a[1..] + b;
      FollowingConcat(a[1..], b, u);
    }
  }

  lemma {:induction false} FollowersConcat(a: seq<Edge>, b: seq<Edge>, u: int)
    ensures Followers(a + b, u) == Followers(a, u) + Followers(b, u)
  {
    if a == [] {
      assert a + b == b;
    } else {
      assert (a + b)[1..] == a[1..] + b;
      FollowersConcat(a[1..], b, u);
    }
  }

  lemma {:induction false} AllPairsCounts(us: seq<int>, all: seq<int>, x: int)
    requires NoDup(us) && NoDup(all)
    ensures |Following(AllPairs(us, all), x)| == if x in us then |all| - (if x in all then 1 else 0) else 0
    ensures |Followers(AllPairs(us, all), x)| == if x in all then |us| - (if x in us then 1 else 0) else 0
  {
    if us != [] {
      var init, last := us[..|us| - 1], us[|us| - 1];
      assert us == init + [last];
      assert NoDup(init);
      AllPairsCounts(init, all, x);
      RowSize(last, all);
      RowFollowing(last, all, x);
      RowFollowers(last, all, x);
      FollowingConcat(AllPairs(init, all), Row(last, all), x);
      FollowersConcat(AllPairs(init, all), Row(last, all), x);
      assert last !in init;
    }
  }

  /** After seeding n users, each of them follows n - 1 users and is followed by n - 1. */
  lemma SeededDegrees(ids: seq<int>, x: int)
    requires NoDup(ids) && x in ids
    ensures |Following(AllPairs(ids, ids), x)| == |ids| - 1
    ensures |Followers(AllPairs(ids, ids), x)| == |ids| - 1
  {
    AllPairsCounts(ids, ids, x);
  }

  /** Through the foreign keys, a database without users has no rows at all. */
  lemma NoUsersNoRows(db: Db)
    requires db.Valid()
    ensures db.users == [] ==> db.follows == [] && db.posts == [] && db.comments == [] && db.reactions == []
  {
    if db.follows != [] {
      assert db.follows[0] in db.follows;
    }
    if db.posts != [] {
      assert db.posts[0] in db.posts;
    }
    if db.comments != [] {
      assert db.comments[0] in db.comments;
    }
    if db.reactions != [] {
      assert db.reactions[0] in db.reactions;
    }
  }

  /** The nested loop of the seed: every created user follows every created user with another id. */
  method FollowEveryoneElse(db: Db, created: seq<User>, ids: seq<int>)
    requires |created| == |ids| && forall k :: 0 <= k < |ids| ==> created[k].id == ids[k]
    requires db.follows == []
    modifies db`follows
    ensures db.follows == AllPairs(ids, ids)
  {
    assert ids[..0] == [];
    for i := 0 to |created|
      invariant db.follows == AllPairs(ids[..i], ids)
    {
      for j := 0 to |created|
        invariant db.follows == AllPairs(ids[..i], ids) + Row(ids[i], ids[..j])
      {
        if created[i].id != created[j].id {
          db.follows := db.follows + [Edge(created[i].id, created[j].id)];
        }
        assert ids[..j + 1][..j] == ids[..j];
      }
      assert ids[..|created|] == ids;
      assert ids[..i + 1][..i] == ids[..i];
    }
    assert ids[..|created|] == ids;
  }

  /**
   * `create_initial_users`. When any user exists, nothing changes. Otherwise
   * one user per `UsersData` entry is created, with ids `ids` as the database
   * assigns them, and every seeded user then follows every other one.
   */
  method CreateInitialUsers(db: Db, ids: seq<int>, hash: string -> string) returns (seeded: bool)
    requires db.Valid()
    requires |ids| == |UsersData| && NoDup(ids)
    modifies db`users, db`follows
    ensures db.Valid()
    ensures seeded <==> |old(db.users)| == 0
    ensures !seeded ==> db.users == old(db.users) && db.follows == old(db.follows)
    ensures seeded ==> |db.users| == |UsersData|
    ensures seeded ==> forall i :: 0 <= i < |UsersData| ==> db.users[i] == SeededUser(UsersData[i], ids[i], hash)
    ensures seeded ==> db.follows == AllPairs(ids, ids)
  {
    if |db.users| > 0 {
      return false;
    }
    NoUsersNoRows(db);
    var created: seq<User> := [];
    for i := 0 to |UsersData|
      invariant |created| == i && db.users == created && db.follows == []
      invariant forall k :: 0 <= k < i ==> created[k] == SeededUser(UsersData[k], ids[k], hash)
    {
      var data := UsersData[i];
      var user := User(ids[i], data.username, hash(data.password), data.displayName, data.theme, None);
      db.users := db.users + [user];
      created := created + [user];
    }
    FollowEveryoneElse(db, created, ids);
    AllPairsMembers(ids, ids);
    AllPairsNoDup(ids, ids);
    assert UserIds(db.users) == set x | x in ids by {
      forall x ensures x in UserIds(db.users) <==> x in ids {
        if x in ids {
          var k :| 0 <= k < |ids| && ids[k] == x;
          assert db.users[k].id == x;
        }
      }
    }
    assert UniqueUserIds(db.users);
    assert UniqueUsernames(db.users) by {
      assert db.users[0].username == "uncle_paul" && db.users[1].username == "niece_lily";
      assert db.users[2].username == "nephew_max";
    }
    return true;
  }
}
