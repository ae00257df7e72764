/**
 * Reactions on a post (backend/app/routers/posts.py): the per-emoji summary
 * that the feed and the post view fold out of `post.reactions`, and the
 * add / remove / change state machine of `toggle_reaction`.
 */
module Reactions {
  import opened Wrappers
  import opened Query
  import opened Schema

  /** One entry of a post's `reactions` list: `{"emoji": k, "count": v}`. */
  datatype EmojiCount = EmojiCount(emoji: string, count: nat)

  // ---------------------------------------------------------------------------
  // The summary, as functions over the reactions seen so far

  /** How many of `rs` carry emoji `e`. */
  function Count(rs: seq<Reaction>, e: string): nat
  {
    if rs == [] then 0
    else Count(rs[..|rs| - 1], e) + (if rs[|rs| - 1].emoji == e then 1 else 0)
  }

  /** The keys of the summary dict: each emoji once, in order of first occurrence. */
  function EmojisInOrder(rs: seq<Reaction>): seq<string>
  {
    if rs == [] then []
    else
      var seen := EmojisInOrder(rs[..|rs| - 1]);
      if rs[|rs| - 1].emoji in seen then seen else seen + [rs[|rs| - 1].emoji]
  }

  /** The `reactions` field of a post view. */
  function Summary(rs: seq<Reaction>): seq<EmojiCount>
  {
    var keys := EmojisInOrder(rs);
    seq(|keys|, k requires 0 <= k < |keys| => EmojiCount(keys[k], Count(rs, keys[k])))
  }

  /** The `user_reaction` field: the emoji of the last of `rs` made by `uid`. */
  function UserReaction(rs: seq<Reaction>, uid: int): Option<string>
  {
    if rs == [] then None
    else if rs[|rs| - 1].userId == uid then Some(rs[|rs| - 1].emoji)
    else UserReaction(rs[..|rs| - 1], uid)
  }

  /** Sum of the counts of a summary. */
  function Total(summary: seq<EmojiCount>): nat
  {
    if summary == [] then 0 else summary[0].count + Total(summary[1..])
  }

  /** Index of the first reaction carrying emoji `e`. */
  function FirstIndex(rs: seq<Reaction>, e: string): (k: nat)
    requires Count(rs, e) > 0
    ensures k < |rs| && rs[k].emoji == e
    ensures forall j :: 0 <= j < k ==> rs[j].emoji != e
  {
    var init := rs[..|rs| - 1];
    if Count(init, e) > 0 then
      var k := FirstIndex(init, e);
      assert forall j :: 0 <= j <= k ==> rs[j] == init[j];
      k
    else
      CountPositiveIff(init, e);
      assert forall j :: 0 <= j < |init| ==> rs[j] == init[j];
      |rs| - 1
  }

  // ---------------------------------------------------------------------------
  // The loop of get_feed / get_post that builds the summary

  /**
   * Folds a post's reactions into a dict of per-emoji counters (kept as its
   * key order plus a map) and the caller's own reaction, then lists the dict.
   */
  method Summarize(rs: seq<Reaction>, uid: int) returns (summary: seq<EmojiCount>, userReaction: Option<string>)
    ensures summary == Summary(rs)
    ensures userReaction == UserReaction(rs, uid)
  {
    var counts: map<string, nat> := map[];
    var keys: seq<string> := [];
    userReaction := None;
    for i := 0 to |rs|
      invariant keys == EmojisInOrder(rs[..i])
      invariant forall e :: e in counts <==> e in keys
      invariant forall e :: e in counts ==> counts[e] == Count(rs[..i], e)
      invariant forall e :: e !in counts ==> Count(rs[..i], e) == 0
      invariant userReaction == UserReaction(rs[..i], uid)
    {
      assert rs[..i + 1][..i] == rs[..i];
      var reaction := rs[i];
      if reaction.emoji !in counts {
        counts := counts[reaction.emoji := 0];
        keys := keys + [reaction.emoji];
      }
      counts := counts[reaction.emoji := counts[reaction.emoji] + 1];
      if reaction.userId == uid {
        userReaction := Some(reaction.emoji);
      }
      assert forall e :: Count(rs[..i + 1], e) == Count(rs[..i], e) + (if reaction.emoji == e then 1 else 0);
    }
    assert rs[..|rs|] == rs;
    summary := seq(|keys|, k requires 0 <= k < |keys| => EmojiCount(keys[k], counts[keys[k]]));
  }

  // ---------------------------------------------------------------------------
  // What the summary means

  lemma {:induction false} CountPositiveIff(rs: seq<Reaction>, e: string)
    ensures Count(rs, e) > 0 <==> exists i :: 0 <= i < |rs| && rs[i].emoji == e
  {
    if rs != [] {
      var init := rs[..|rs| - 1];
      CountPositiveIff(init, e);
      if Count(init, e) > 0 {
        var i :| 0 <= i < |init| && init[i].emoji == e;
        assert rs[i] == init[i];
      }
      if exists i :: 0 <= i < |rs| && rs[i].emoji == e {
        var i :| 0 <= i < |rs| && rs[i].emoji == e;
        if i < |init| { assert init[i] == rs[i]; }
      }
    }
  }

  /** The summary's keys are exactly the emojis used, each once. */
  lemma {:induction false} EmojisInOrderSpec(rs: seq<Reaction>)
    ensures NoDup(EmojisInOrder(rs))
    ensures forall e :: e in EmojisInOrder(rs) <==> Count(rs, e) > 0
  {
    if rs != [] {
      EmojisInOrderSpec(rs[..|rs| - 1]);
    }
  }

  /**
   * Each summary entry counts exactly the reactions with its emoji, no entry
   * is zero, and every emoji in use has an entry.
   */
  lemma SummaryCountsExact(rs: seq<Reaction>)
    ensures forall k :: 0 <= k < |Summary(rs)| ==>
      Summary(rs)[k].count == Count(rs, Summary(rs)[k].emoji) && Summary(rs)[k].count > 0
    ensures forall i :: 0 <= i < |rs| ==>
      exists k :: 0 <= k < |Summary(rs)| && Summary(rs)[k].emoji == rs[i].emoji
    ensures forall k, l :: 0 <= k < l < |Summary(rs)| ==> Summary(rs)[k].emoji != Summary(rs)[l].emoji
  {
    EmojisInOrderSpec(rs);
    var keys := EmojisInOrder(rs);
    forall i | 0 <= i < |rs|
      ensures exists k :: 0 <= k < |Summary(rs)| && Summary(rs)[k].emoji == rs[i].emoji
    {
      CountPositiveIff(rs, rs[i].emoji);
      var k :| 0 <= k < |keys| && keys[k] == rs[i].emoji;
      assert Summary(rs)[k].emoji == rs[i].emoji;
    }
  }

  function CountsOver(keys: seq<string>, rs: seq<Reaction>): nat
  {
    if keys == [] then 0 else Count(rs, keys[0]) + CountsOver(keys[1..], rs)
  }

  lemma {:induction false} CountsOverStep(keys: seq<string>, rs: seq<Reaction>, x: Reaction)
    requires NoDup(keys)
    ensures CountsOver(keys, rs + [x]) == CountsOver(keys, rs) + (if x.emoji in keys then 1 else 0)
  {
    if keys != [] {
      assert (rs + [x])[..|rs|] == rs;
      assert NoDup(keys[1..]);
      CountsOverStep(keys[1..], rs, x);
      assert x.emoji in keys <==> x.emoji == keys[0] || x.emoji in keys[1..];
    }
  }

  lemma {:induction false} CountsOverAppend(keys: seq<string>, e: string, rs: seq<Reaction>)
    ensures CountsOver(keys + [e], rs) == CountsOver(keys, rs) + Count(rs, e)
  {
    if keys == [] {
      assert keys + [e] == [e];
    } else {
      assert (keys + [e])[1..] == keys[1..] + [e];
      CountsOverAppend(keys[1..], e, rs);
    }
  }

  lemma {:induction false} CountsOverAll(rs: seq<Reaction>)
    ensures CountsOver(EmojisInOrder(rs), rs) == |rs|
  {
    if rs != [] {
      var init, x := rs[..|rs| - 1], rs[|rs| - 1];
      var seen := EmojisInOrder(init);
      assert rs == init + [x];
      CountsOverAll(init);
      EmojisInOrderSpec(init);
      CountsOverStep(seen, init, x);
      if x.emoji !in seen {
        CountsOverAppend(seen, x.emoji, rs);
        assert Count(init, x.emoji) == 0;
      }
    }
  }

  lemma {:induction false} TotalIsCountsOver(keys: seq<string>, rs: seq<Reaction>)
    ensures Total(seq(|keys|, k requires 0 <= k < |keys| => EmojiCount(keys[k], Count(rs, keys[k])))) == CountsOver(keys, rs)
  {
    var s := seq(|keys|, k requires 0 <= k < |keys| => EmojiCount(keys[k], Count(rs, keys[k])));
    if keys != [] {
      var t := seq(|keys[1..]|, k requires 0 <= k < |keys[1..]| => EmojiCount(keys[1..][k], Count(rs, keys[1..][k])));
      assert s[1..] == t;
      TotalIsCountsOver(keys[1..], rs);
    }
  }

  /** The counts of the summary add up to the number of reactions on the post. */
  lemma SummaryTotal(rs: seq<Reaction>)
    ensures Total(Summary(rs)) == |rs|
  {
    TotalIsCountsOver(EmojisInOrder(rs), rs);
    CountsOverAll(rs);
  }

  /** The entries come in the order in which their emojis first occur (dict insertion order). */
  lemma {:induction false} SummaryFirstOccurrenceOrder(rs: seq<Reaction>)
    ensures forall k :: 0 <= k < |Summary(rs)| ==> Count(rs, Summary(rs)[k].emoji) > 0
    ensures forall k, l :: 0 <= k < l < |Summary(rs)| ==>
      FirstIndex(rs, Summary(rs)[k].emoji) < FirstIndex(rs, Summary(rs)[l].emoji)
  {
    EmojisInOrderSpec(rs);
    if rs != [] {
      var init := rs[..|rs| - 1];
      SummaryFirstOccurrenceOrder(init);
      EmojisInOrderSpec(init);
      var keys, seen := EmojisInOrder(rs), EmojisInOrder(init);
      forall k, l | 0 <= k < l < |keys| ensures FirstIndex(rs, keys[k]) < FirstIndex(rs, keys[l]) {
        assert keys[k] in seen;
        assert Summary(init)[k].emoji == keys[k];
        if l < |seen| {
          assert Summary(init)[l].emoji == keys[l];
        }
      }
    }
  }

  /** `user_reaction` is None exactly when the caller has not reacted. */
  lemma {:induction false} UserReactionNoneIff(rs: seq<Reaction>, uid: int)
    ensures UserReaction(rs, uid) == None <==> forall i :: 0 <= i < |rs| ==> rs[i].userId != uid
    ensures UserReaction(rs, uid) != None ==>
      exists i :: 0 <= i < |rs| && rs[i].userId == uid && rs[i].emoji == UserReaction(rs, uid).value
  {
    if rs != [] {
      var init := rs[..|rs| - 1];
      UserReactionNoneIff(init, uid);
      if rs[|rs| - 1].userId != uid && UserReaction(init, uid) != None {
        var i :| 0 <= i < |init| && init[i].userId == uid && init[i].emoji == UserReaction(init, uid).value;
        assert rs[i] == init[i];
      }
    }
  }

  /**
   * On one post, under the one-reaction-per-user constraint, `user_reaction`
   * is `Some(e)` exactly when the caller's reaction there has emoji `e`.
   */
  lemma UserReactionIsOwnReaction(rs: seq<Reaction>, uid: int, e: string)
    requires OneReactionPerUser(rs)
    requires forall i :: 0 <= i < |rs| ==> rs[i].postId == rs[0].postId
    ensures UserReaction(rs, uid) == Some(e) <==> exists i :: 0 <= i < |rs| && rs[i].userId == uid && rs[i].emoji == e
  {
    UserReactionNoneIff(rs, uid);
  }

  /** Taking the first row off keeps the constraint, and that row shares its key with no later row. */
  lemma OnePerUserUncons(rs: seq<Reaction>)
    requires OneReactionPerUser(rs) && rs != []
    ensures OneReactionPerUser(rs[1..])
    ensures forall y :: y in rs[1..] ==> rs[0].postId != y.postId || rs[0].userId != y.userId
  {
    var rest := rs[1..];
    assert forall i :: 0 <= i < |rest| ==> rest[i] == rs[i + 1];
  }

  /** A row whose key no row of `t` shares can go in front of `t`. */
  lemma OnePerUserCons(x: Reaction, t: seq<Reaction>)
    requires OneReactionPerUser(t)
    requires forall y :: y in t ==> x.postId != y.postId || x.userId != y.userId
    ensures OneReactionPerUser([x] + t)
  {
    var r := [x] + t;
    assert forall j :: 0 < j < |r| ==> r[j] == t[j - 1] && t[j - 1] in t;
  }

  /** Any selection of reactions keeps the one-reaction-per-user constraint. */
  lemma {:induction false} FilterKeepsOnePerUser(rs: seq<Reaction>, p: Reaction -> bool)
    requires OneReactionPerUser(rs)
    ensures OneReactionPerUser(Filter(rs, p))
  {
    if rs != [] {
      OnePerUserUncons(rs);
      FilterKeepsOnePerUser(rs[1..], p);
      if p(rs[0]) {
        var tail := Filter(rs[1..], p);
        assert Filter(rs, p) == [rs[0]] + tail;
        assert forall y :: y in tail ==> y in rs[1..];
        OnePerUserCons(rs[0], tail);
      }
    }
  }

  // ---------------------------------------------------------------------------
  // toggle_reaction, as a function of the reactions table

  function KeyIs(postId: int, userId: int): Reaction -> bool
  {
    (r: Reaction) => r.postId == postId && r.userId == userId
  }

  function KeyIsNot(postId: int, userId: int): Reaction -> bool
  {
    (r: Reaction) => r.postId != postId || r.userId != userId
  }

  /** The emoji of `userId`'s reaction on `postId`, found as `.first()` does. */
  function ReactionOf(rs: seq<Reaction>, postId: int, userId: int): Option<string>
  {
    match FindFirst(rs, KeyIs(postId, userId))
    case None => None
    case Some(k) => Some(rs[k].emoji)
  }

  /** The three outcomes of a toggle, one per response message. */
  datatype Change = Added | Removed | Updated

  function ChangeOf(rs: seq<Reaction>, postId: int, userId: int, emoji: string): Change
  {
    match ReactionOf(rs, postId, userId)
    case None => Added
    case Some(e) => if e == emoji then Removed else Updated
  }

  function Message(c: Change): string
  {
    match c
    case Added => "Reaction added"
    case Removed => "Reaction removed"
    case Updated => "Reaction updated"
  }

  /**
   * The reactions table after `toggle_reaction`: delete the caller's reaction
   * when it has the same emoji, rewrite its emoji in place when it differs,
   * and append a new row (id `id`, created at `now`) when there is none.
   */
  function Toggled(rs: seq<Reaction>, postId: int, userId: int, emoji: string, id: int, now: int): seq<Reaction>
  {
    match FindFirst(rs, KeyIs(postId, userId))
    case None => rs + [Reaction(id, postId, userId, emoji, now)]
    case Some(k) =>
      if rs[k].emoji == emoji then rs[..k] + rs[k + 1..]
      else rs[k := rs[k].(emoji := emoji)]
  }

  /** Dropping a row that the filter rejects changes nothing. */
  lemma FilterSkipsRow<T>(a: seq<T>, x: T, b: seq<T>, p: T -> bool)
    requires !p(x)
    ensures Filter(a + [x] + b, p) == Filter(a + b, p)
  {
    FilterConcat(a + [x], b, p);
    FilterConcat(a, [x], p);
    FilterConcat(a, b, p);
    assert Filter([x], p) == [];
  }

  /** The rows of every other (post, user) pair keep their contents and order. */
  lemma ToggleKeepsOthers(rs: seq<Reaction>, postId: int, userId: int, emoji: string, id: int, now: int)
    ensures Filter(Toggled(rs, postId, userId, emoji, id, now), KeyIsNot(postId, userId))
         == Filter(rs, KeyIsNot(postId, userId))
  {
    var p := KeyIsNot(postId, userId);
    match FindFirst(rs, KeyIs(postId, userId))
    case None =>
      var row := Reaction(id, postId, userId, emoji, now);
      FilterSkipsRow(rs, row, [], p);
      assert rs + [row] + [] == rs + [row] && rs + [] == rs;
    case Some(k) =>
      assert rs == rs[..k] + [rs[k]] + rs[k + 1..];
      FilterSkipsRow(rs[..k], rs[k], rs[k + 1..], p);
      if rs[k].emoji != emoji {
        var row := rs[k].(emoji := emoji);
        assert rs[k := row] == rs[..k] + [row] + rs[k + 1..];
        FilterSkipsRow(rs[..k], row, rs[k + 1..], p);
      }
  }

  /**
   * The caller's reaction after a toggle: added with the given emoji when
   * absent, removed when it had that emoji, changed to it otherwise; the
   * table grows, shrinks or keeps its size by exactly one row accordingly.
   */
  lemma ToggleEffect(rs: seq<Reaction>, postId: int, userId: int, emoji: string, id: int, now: int)
    requires OneReactionPerUser(rs)
    ensures var after := Toggled(rs, postId, userId, emoji, id, now);
      && ReactionOf(after, postId, userId) == (if ChangeOf(rs, postId, userId, emoji) == Removed then None else Some(emoji))
      && |after| == match ChangeOf(rs, postId, userId, emoji)
                    case Added => |rs| + 1
                    case Removed => |rs| - 1
                    case Updated => |rs|
  {
    var after := Toggled(rs, postId, userId, emoji, id, now);
    var key := KeyIs(postId, userId);
    match FindFirst(rs, key)
    case None =>
      assert after == rs + [Reaction(id, postId, userId, emoji, now)];
      assert key(after[|rs|]);
      assert forall j :: 0 <= j < |rs| ==> after[j] == rs[j];
    case Some(k) =>
      if rs[k].emoji == emoji {
        assert after == rs[..k] + rs[k + 1..];
        forall j | 0 <= j < |after| ensures !key(after[j]) {
          if j < k { assert after[j] == rs[j]; } else { assert after[j] == rs[j + 1]; }
        }
      } else {
        assert key(after[k]);
        assert forall j :: 0 <= j < k ==> after[j] == rs[j];
      }
  }

  /** A toggle keeps the one-reaction-per-user-per-post constraint. */
  lemma ToggleKeepsOneReactionPerUser(rs: seq<Reaction>, postId: int, userId: int, emoji: string, id: int, now: int)
    requires OneReactionPerUser(rs)
    ensures OneReactionPerUser(Toggled(rs, postId, userId, emoji, id, now))
  {
    var after := Toggled(rs, postId, userId, emoji, id, now);
    match FindFirst(rs, KeyIs(postId, userId))
    case None =>
      assert forall j :: 0 <= j < |rs| ==> after[j] == rs[j];
    case Some(k) =>
      if rs[k].emoji == emoji {
        assert forall j :: 0 <= j < |after| ==> after[j] == if j < k then rs[j] else rs[j + 1];
      }
  }

  /** With a fresh `id` for a new row, toggling keeps the reaction ids unique. */
  lemma ToggleKeepsUniqueIds(rs: seq<Reaction>, postId: int, userId: int, emoji: string, id: int, now: int)
    requires UniqueReactionIds(rs) && forall r :: r in rs ==> r.id != id
    ensures UniqueReactionIds(Toggled(rs, postId, userId, emoji, id, now))
  {
    var after := Toggled(rs, postId, userId, emoji, id, now);
    match FindFirst(rs, KeyIs(postId, userId))
    case None =>
      assert forall j :: 0 <= j < |rs| ==> after[j] == rs[j] && rs[j] in rs;
    case Some(k) =>
      if rs[k].emoji == emoji {
        assert forall j :: 0 <= j < |after| ==> after[j] == if j < k then rs[j] else rs[j + 1];
      }
  }

  /** Toggling the same emoji twice from "no reaction" gives back the same table. */
  lemma ToggleTwiceFromNone(rs: seq<Reaction>, postId: int, userId: int, emoji: string, id: int, now: int, id2: int, now2: int)
    requires ReactionOf(rs, postId, userId) == None
    ensures Toggled(Toggled(rs, postId, userId, emoji, id, now), postId, userId, emoji, id2, now2) == rs
  {
    var once := Toggled(rs, postId, userId, emoji, id, now);
    var key := KeyIs(postId, userId);
    assert once == rs + [Reaction(id, postId, userId, emoji, now)];
    assert forall j :: 0 <= j < |rs| ==> once[j] == rs[j];
    assert key(once[|rs|]);
    assert FindFirst(once, key) == Some(|rs|);
    assert once[..|rs|] == rs;
  }
}
