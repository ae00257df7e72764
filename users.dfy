/**
 * The users router (backend/app/routers/users.py): listing profiles,
 * updating one's own profile and toggling a follow.
 */
module Users {
  import opened Wrappers
  import opened Query
  import opened Schema

  /** The `UserProfile` body, as seen by the calling user. */
  datatype UserProfile = UserProfile(
    id: int,
    username: string,
    displayName: string,
    theme: ThemeType,
    avatarUrl: Option<string>,
    isFollowing: bool,
    followersCount: nat,
    followingCount: nat)

  const UserNotFound := HttpError(NotFound, "User not found")
  const CannotFollowYourself := HttpError(BadRequest, "Cannot follow yourself")

  // ---------------------------------------------------------------------------
  // get_all_users, get_user

  /** The profile of `u` as seen by `me`. */
  function ProfileOf(u: User, me: int, follows: seq<Edge>): UserProfile
  {
    UserProfile(u.id, u.username, u.displayName, u.theme, u.avatarUrl,
                u.id in Following(follows, me),
                |Followers(follows, u.id)|, |Following(follows, u.id)|)
  }

  /** `is_following` holds exactly when `me` has a follow edge to the listed user. */
  lemma IsFollowingIffEdge(u: User, me: int, follows: seq<Edge>)
    ensures ProfileOf(u, me, follows).isFollowing <==> Edge(me, u.id) in follows
  {
  }

  /** The users following `u`, and those `u` follows, as sets of ids. */
  function FollowerIds(follows: seq<Edge>, u: int): set<int>
  {
    set e | e in follows && e.followed == u :: e.follower
  }

  function FollowedIds(follows: seq<Edge>, u: int): set<int>
  {
    set e | e in follows && e.follower == u :: e.followed
  }

  lemma {:induction false} FollowersNoDup(follows: seq<Edge>, u: int)
    requires NoDup(follows)
    ensures NoDup(Followers(follows, u)) && NoDup(Following(follows, u))
  {
    if follows != [] {
      var rest := follows[1..];
      assert NoDup(rest);
      FollowersNoDup(rest, u);
      assert follows[0] !in rest;
    }
  }

  lemma {:induction false} NoDupCardinality(s: seq<int>)
    requires NoDup(s)
    ensures |set x | x in s| == |s|
  {
    if s != [] {
      assert NoDup(s[1..]);
      NoDupCardinality(s[1..]);
      assert (set x | x in s) == {s[0]} + (set x | x in s[1..]);
      assert s[0] !in (set x | x in s[1..]);
    }
  }

  /**
   * With no duplicate follow edges, `followers_count` and `following_count`
   * are the numbers of distinct users following `u` and followed by `u`.
   */
  lemma FollowCountsAreDegrees(u: User, me: int, follows: seq<Edge>)
    requires NoDup(follows)
    ensures ProfileOf(u, me, follows).followersCount == |FollowerIds(follows, u.id)|
    ensures ProfileOf(u, me, follows).followingCount == |FollowedIds(follows, u.id)|
  {
    FollowersNoDup(follows, u.id);
    NoDupCardinality(Followers(follows, u.id));
    NoDupCardinality(Following(follows, u.id));
    assert (set x | x in Followers(follows, u.id)) == FollowerIds(follows, u.id);
    assert (set x | x in Following(follows, u.id)) == FollowedIds(follows, u.id);
  }

  /**
   * `get_all_users`: one profile per row of the users table, in table order,
   * so every user (the caller included) appears exactly once.
   */
  method GetAllUsers(db: Db, me: int) returns (profiles: seq<UserProfile>)
    requires db.Valid()
    ensures |profiles| == |db.users|
    ensures forall i :: 0 <= i < |profiles| ==> profiles[i] == ProfileOf(db.users[i], me, db.follows)
    ensures forall i, j :: 0 <= i < j < |profiles| ==> profiles[i].id != profiles[j].id
    ensures forall id :: id in UserIds(db.users) ==> exists i :: 0 <= i < |profiles| && profiles[i].id == id
  {
    profiles := [];
    for i := 0 to |db.users|
      invariant |profiles| == i
      invariant forall k :: 0 <= k < i ==> profiles[k] == ProfileOf(db.users[k], me, db.follows)
    {
      var user := db.users[i];
      var isFollowing := user.id in Following(db.follows, me);
      profiles := profiles + [UserProfile(user.id, user.username, user.displayName, user.theme, user.avatarUrl,
                                          isFollowing, |Followers(db.follows, user.id)|,
                                          |Following(db.follows, user.id)|)];
    }
    forall id | id in UserIds(db.users) ensures exists i :: 0 <= i < |profiles| && profiles[i].id == id {
      var u :| u in db.users && u.id == id;
      var i :| 0 <= i < |db.users| && db.users[i] == u;
      assert profiles[i].id == id;
    }
  }

  /** `get_user`: 404 for an unknown id, otherwise that user's profile. */
  method GetUser(db: Db, me: int, userId: int) returns (r: Result<UserProfile>)
    requires db.Valid()
    ensures r.Err? <==> userId !in UserIds(db.users)
    ensures r.Err? ==> r.error == UserNotFound
    ensures r.Ok? ==> r.value == ProfileOf(UserById(db.users, userId), me, db.follows)
  {
    var k := FindFirst(db.users, HasUserId(userId));
    if k.None? {
      forall u | u in db.users ensures u.id != userId {
        var j :| 0 <= j < |db.users| && db.users[j] == u;
        assert !HasUserId(userId)(db.users[j]);
      }
      return Err(UserNotFound);
    }
    var user := db.users[k.value];
    var v := UserById(db.users, userId);
    var j :| 0 <= j < |db.users| && db.users[j] == v;
    assert j == k.value;
    r := Ok(ProfileOf(user, me, db.follows));
  }

  // ---------------------------------------------------------------------------
  // update_profile

  /** The `UpdateProfile` body: every field optional. */
  datatype ProfileUpdate = ProfileUpdate(
    displayName: Option<string>,
    theme: Option<ThemeType>,
    avatarUrl: Option<string>)

  /**
   * `update_profile`'s field rules: the display name only when given and
   * non-empty (Python truthiness), the theme whenever given, the avatar URL
   * whenever not None, the empty string included.
   */
  function Updated(u: User, p: ProfileUpdate): User
  {
    var u1 := if p.displayName.Some? && p.displayName.value != "" then u.(displayName := p.displayName.value) else u;
    var u2 := if p.theme.Some? then u1.(theme := p.theme.value) else u1;
    if p.avatarUrl.Some? then u2.(avatarUrl := p.avatarUrl) else u2
  }

  /**
   * Which fields an update changes: each one exactly under its own rule, and
   * the id, username and password hash never.
   */
  lemma UpdatedFields(u: User, p: ProfileUpdate)
    ensures var v := Updated(u, p);
      && v.id == u.id && v.username == u.username && v.hashedPassword == u.hashedPassword
      && (v.displayName == if p.displayName.Some? && p.displayName.value != "" then p.displayName.value else u.displayName)
      && (v.theme == if p.theme.Some? then p.theme.value else u.theme)
      && (v.avatarUrl == if p.avatarUrl.Some? then p.avatarUrl else u.avatarUrl)
  {
  }

  /** Sending the same update twice has the effect of sending it once. */
  lemma UpdateIdempotent(u: User, p: ProfileUpdate)
    ensures Updated(Updated(u, p), p) == Updated(u, p)
  {
  }

  /**
   * Replacing a row by one with the same id and username keeps the set of ids
   * and the uniqueness of ids and usernames.
   */
  lemma ReplaceKeepsIds(users: seq<User>, k: nat, v: User)
    requires k < |users| && v.id == users[k].id && v.username == users[k].username
    ensures UserIds(users[k := v]) == UserIds(users)
    ensures UniqueUserIds(users) ==> UniqueUserIds(users[k := v])
    ensures UniqueUsernames(users) ==> UniqueUsernames(users[k := v])
  {
    var after := users[k := v];
    forall x ensures x in UserIds(after) <==> x in UserIds(users) {
      if x in UserIds(after) {
        var u :| u in after && u.id == x;
        var j :| 0 <= j < |after| && after[j] == u;
        assert users[j].id == x;
      }
      if x in UserIds(users) {
        var u :| u in users && u.id == x;
        var j :| 0 <= j < |users| && users[j] == u;
        assert after[j].id == x;
      }
    }
  }

  /** `update_profile`: the caller's row becomes `Updated(row, p)`; every other row is untouched. */
  method UpdateProfile(db: Db, me: int, p: ProfileUpdate) returns (message: string)
    requires db.Valid() && me in UserIds(db.users)
    modifies db`users
    ensures db.Valid()
    ensures |db.users| == |old(db.users)|
    ensures forall i :: 0 <= i < |db.users| ==>
      db.users[i] == if old(db.users)[i].id == me then Updated(old(db.users)[i], p) else old(db.users)[i]
    ensures message == "Profile updated successfully"
  {
    var k := FindFirst(db.users, HasUserId(me)).value by {
      var u := UserById(db.users, me);
      var j :| 0 <= j < |db.users| && db.users[j] == u;
      assert HasUserId(me)(db.users[j]);
    }
    var current := db.users[k];
    if p.displayName.Some? && p.displayName.value != "" {
      current := current.(displayName := p.displayName.value);
    }
    if p.theme.Some? {
      current := current.(theme := p.theme.value);
    }
    if p.avatarUrl.Some? {
      current := current.(avatarUrl := p.avatarUrl);
    }
    assert current == Updated(db.users[k], p);
    ReplaceKeepsIds(db.users, k, current);
    db.users := db.users[k := current];
    message := "Profile updated successfully";
  }

  // ---------------------------------------------------------------------------
  // toggle_follow

  /** Position of the first occurrence of `x`. */
  function IndexOf<T(==)>(s: seq<T>, x: T): (k: nat)
    requires x in s
    ensures k < |s| && s[k] == x && x !in s[..k]
  {
    if s[0] == x then 0
    else
      var k := IndexOf(s[1..], x) + 1;
      assert s[..k] == [s[0]] + s[1..][..k - 1];
      k
  }

  /** Python's `list.remove`: drop the first occurrence of `x`. */
  function RemoveFirst<T(==)>(s: seq<T>, x: T): (r: seq<T>)
    requires x in s
    ensures |r| == |s| - 1
    ensures multiset(r) + multiset{x} == multiset(s)
    ensures forall i :: 0 <= i < |r| ==> r[i] == if i < IndexOf(s, x) then s[i] else s[i + 1]
  {
    var k := IndexOf(s, x);
    assert s == s[..k] + [x] + s[k + 1..];
    s[..k] + s[k + 1..]
  }

  /**
   * The follow table after `toggle_follow(me → target)`: remove the edge if
   * present, otherwise append it.
   */
  function ToggledFollows(follows: seq<Edge>, me: int, target: int): seq<Edge>
  {
    var e := Edge(me, target);
    if e in follows then RemoveFirst(follows, e) else follows + [e]
  }

  /** Removing the only occurrence of an edge from a table without duplicates. */
  lemma RemoveOnly(follows: seq<Edge>, x: Edge) returns (k: nat)
    requires NoDup(follows) && x in follows
    ensures k < |follows| && follows[k] == x && RemoveFirst(follows, x) == follows[..k] + follows[k + 1..]
    ensures NoDup(RemoveFirst(follows, x))
    ensures forall e :: e in RemoveFirst(follows, x) <==> e in follows && e != x
  {
    k := IndexOf(follows, x);
    var after := RemoveFirst(follows, x);
    assert forall i :: 0 <= i < |after| ==> after[i] == if i < k then follows[i] else follows[i + 1];
    forall e ensures e in after <==> e in follows && e != x {
      if e in follows && e != x {
        var i :| 0 <= i < |follows| && follows[i] == e;
        assert i != k;
        assert after[if i < k then i else i - 1] == e;
      }
    }
  }

  /**
   * Membership flips for the edge `me → target` and for no other edge, and
   * the table keeps having no duplicate edges.
   */
  lemma ToggleFollowFlips(follows: seq<Edge>, me: int, target: int)
    requires NoDup(follows)
    ensures NoDup(ToggledFollows(follows, me, target))
    ensures forall e :: e in ToggledFollows(follows, me, target) <==> (if e == Edge(me, target) then e !in follows else e in follows)
  {
    var x := Edge(me, target);
    if x in follows {
      var _ := RemoveOnly(follows, x);
    }
  }

  /** Toggling the same target twice gives back the same follow relation. */
  lemma ToggleFollowTwice(follows: seq<Edge>, me: int, target: int)
    requires NoDup(follows)
    ensures forall e :: e in ToggledFollows(ToggledFollows(follows, me, target), me, target) <==> e in follows
    ensures Edge(me, target) !in follows ==> ToggledFollows(ToggledFollows(follows, me, target), me, target) == follows
  {
    var x := Edge(me, target);
    if x in follows {
      var _ := RemoveOnly(follows, x);
    } else {
      var once := follows + [x];
      assert RemoveFirst(once, x) == follows by {
        var k := IndexOf(once, x);
        assert k == |follows|;
        assert once[..k] == follows;
      }
    }
  }

  /** A toggle between two distinct users never creates a self-follow. */
  lemma ToggleFollowNoSelfLoop(follows: seq<Edge>, me: int, target: int)
    requires NoSelfFollows(follows) && me != target
    ensures NoSelfFollows(ToggledFollows(follows, me, target))
  {
    var x := Edge(me, target);
    var after := ToggledFollows(follows, me, target);
    if x in follows {
      var k := IndexOf(follows, x);
      assert forall i :: 0 <= i < |after| ==> after[i] == if i < k then follows[i] else follows[i + 1];
    }
  }

  /**
   * `toggle_follow`: 400 for the caller itself, 404 for an unknown target,
   * both without change; otherwise the follow table becomes `ToggledFollows`.
   */
  method ToggleFollow(db: Db, me: int, target: int) returns (r: Result<string>)
    requires db.Valid() && me in UserIds(db.users)
    modifies db`follows
    ensures db.Valid()
    ensures target == me ==> r == Err(CannotFollowYourself) && db.follows == old(db.follows)
    ensures target != me && target !in UserIds(db.users) ==> r == Err(UserNotFound) && db.follows == old(db.follows)
    ensures target != me && target in UserIds(db.users) ==>
      && db.follows == ToggledFollows(old(db.follows), me, target)
      && r == Ok((if Edge(me, target) in old(db.follows) then "Unfollowed " else "Now following ")
                 + UserById(db.users, target).displayName)
    ensures NoSelfFollows(old(db.follows)) ==> NoSelfFollows(db.follows)
  {
    if target == me {
      return Err(CannotFollowYourself);
    }
    var k := FindFirst(db.users, HasUserId(target));
    if k.None? {
      forall u | u in db.users ensures u.id != target {
        var j :| 0 <= j < |db.users| && db.users[j] == u;
        assert !HasUserId(target)(db.users[j]);
      }
      return Err(UserNotFound);
    }
    var targetUser := db.users[k.value];
    var v := UserById(db.users, target);
    var j :| 0 <= j < |db.users| && db.users[j] == v;
    assert j == k.value;
    ghost var before := db.follows;
    var edge := Edge(me, target);
    ToggleFollowFlips(before, me, target);
    if NoSelfFollows(before) {
      ToggleFollowNoSelfLoop(before, me, target);
    }
    if edge in db.follows {
      db.follows := RemoveFirst(db.follows, edge);
      r := Ok("Unfollowed " + targetUser.displayName);
    } else {
      db.follows := db.follows + [edge];
      r := Ok("Now following " + targetUser.displayName);
    }
    assert db.follows == ToggledFollows(before, me, target);
  }
}
