/** The reaction bar under a message (mobile/components/MessageReactions.tsx):
    the message's user-to-emoji slots are grouped into one chip per emoji that
    shows how many users chose it and is highlighted when the current user is
    one of them. The component receives the slots as `Object.entries`
    returns them: a list of `(userId, slot)` pairs. */
module MessageReactions {
  import opened Wrappers
  import opened ChatStore

  /** One entry of the `reactionCounts` dictionary: an emoji and the users
      whose slot holds it, in the order they were pushed. */
  datatype Group = Group(emoji: string, users: seq<UserId>)

  /** One rendered chip: the emoji (what a tap passes to the toggle handler),
      the count shown beside it, and whether it is highlighted. */
  datatype Chip = Chip(emoji: string, count: nat, highlighted: bool)

  /** A slot is counted unless it is falsy (`null` or `''`) or the string
      `'null'`. */
  predicate Counts(slot: Option<string>) {
    slot.Some? && slot.value != "" && slot.value != "null"
  }

  /** The users whose slot holds `e`, in entry order. */
  function UsersWith(entries: seq<(UserId, Option<string>)>, e: string): seq<UserId> {
    if entries == [] then []
    else
      var last := entries[|entries| - 1];
      UsersWith(entries[..|entries| - 1], e) + (if last.1 == Some(e) then [last.0] else [])
  }

  /** The number of counted slots. */
  function CountedEntries(entries: seq<(UserId, Option<string>)>): nat {
    if entries == [] then 0
    else CountedEntries(entries[..|entries| - 1]) + (if Counts(entries[|entries| - 1].1) then 1 else 0)
  }

  /** The emoji keys of the dictionary, in insertion order. */
  function Emojis(groups: seq<Group>): (r: seq<string>)
    ensures |r| == |groups| && forall i :: 0 <= i < |groups| ==> r[i] == groups[i].emoji
  {
    if groups == [] then [] else Emojis(groups[..|groups| - 1]) + [groups[|groups| - 1].emoji]
  }

  /** The sum of the group sizes. */
  function TotalUsers(groups: seq<Group>): nat {
    if groups == [] then 0 else TotalUsers(groups[..|groups| - 1]) + |groups[|groups| - 1].users|
  }

  /** Replacing one group changes the total by the difference in its size. */
  lemma {:induction false} TotalUsersUpdate(groups: seq<Group>, j: nat, g: Group)
    requires j < |groups|
    ensures TotalUsers(groups[j := g]) + |groups[j].users| == TotalUsers(groups) + |g.users|
  {
    var n := |groups|;
    if j < n - 1 {
      assert groups[j := g][..n - 1] == groups[..n - 1][j := g];
      TotalUsersUpdate(groups[..n - 1], j, g);
    } else {
      assert groups[j := g][..n - 1] == groups[..n - 1];
    }
  }

  /** Nobody holds an emoji that no slot of `entries` holds. */
  lemma {:induction false} UsersWithNone(entries: seq<(UserId, Option<string>)>, e: string)
    requires forall k :: 0 <= k < |entries| ==> entries[k].1 != Some(e)
    ensures UsersWith(entries, e) == []
  {
    if entries != [] {
      UsersWithNone(entries[..|entries| - 1], e);
    }
  }

  /** A user listed under `e` has an entry whose slot holds `e`. */
  lemma {:induction false} UsersWithSource(entries: seq<(UserId, Option<string>)>, e: string, u: UserId)
    requires u in UsersWith(entries, e)
    ensures exists k :: 0 <= k < |entries| && entries[k] == (u, Some(e))
  {
    var n := |entries|;
    if u in UsersWith(entries[..n - 1], e) {
      UsersWithSource(entries[..n - 1], e, u);
      var k :| 0 <= k < n - 1 && entries[..n - 1][k] == (u, Some(e));
      assert entries[k] == (u, Some(e));
    } else {
      assert entries[n - 1] == (u, Some(e));
    }
  }

  /** Extending the entries by one extends each emoji's user list by at most
      that entry's user. */
  lemma UsersWithSnoc(entries: seq<(UserId, Option<string>)>, i: nat, e: string)
    requires i < |entries|
    ensures UsersWith(entries[..i + 1], e) ==
      UsersWith(entries[..i], e) + (if entries[i].1 == Some(e) then [entries[i].0] else [])
  {
    assert entries[..i + 1][..i] == entries[..i];
  }

  /** Counting one more entry adds one exactly when its slot counts. */
  lemma CountedSnoc(entries: seq<(UserId, Option<string>)>, i: nat)
    requires i < |entries|
    ensures CountedEntries(entries[..i + 1]) == CountedEntries(entries[..i]) + (if Counts(entries[i].1) then 1 else 0)
  {
    assert entries[..i + 1][..i] == entries[..i];
  }

  /** No two groups have the same emoji. */
  ghost predicate DistinctEmojis(groups: seq<Group>) {
    forall a, b :: 0 <= a < b < |groups| ==> groups[a].emoji != groups[b].emoji
  }

  /** `g` is a group of counted emoji listing exactly the users of `prefix`
      whose slot holds the emoji, and at least one. */
  ghost predicate GroupOk(prefix: seq<(UserId, Option<string>)>, g: Group) {
    Counts(Some(g.emoji)) && g.users == UsersWith(prefix, g.emoji) && g.users != []
  }

  /** What the `reactionCounts` loop has built after the first `i` entries:
      each emoji key once, each group listing exactly the users of those
      entries whose slot holds its emoji, every counted slot among them in a
      group, and as many users in all as there were counted slots. */
  ghost predicate GroupsSoFar(entries: seq<(UserId, Option<string>)>, i: nat, groups: seq<Group>)
    requires i <= |entries|
  {
    && DistinctEmojis(groups)
    && (forall a :: 0 <= a < |groups| ==> GroupOk(entries[..i], groups[a]))
    && (forall k :: 0 <= k < i && Counts(entries[k].1) ==> entries[k].1.value in Emojis(groups))
    && TotalUsers(groups) == CountedEntries(entries[..i])
  }

  /** An uncounted slot leaves the groups as they are. */
  lemma StepSkip(entries: seq<(UserId, Option<string>)>, i: nat, groups: seq<Group>)
    requires i < |entries| && GroupsSoFar(entries, i, groups)
    requires !Counts(entries[i].1)
    ensures GroupsSoFar(entries, i + 1, groups)
  {
    CountedSnoc(entries, i);
    forall a | 0 <= a < |groups| ensures GroupOk(entries[..i + 1], groups[a]) {
      UsersWithSnoc(entries, i, groups[a].emoji);
    }
  }

  /** A counted slot with an emoji not seen before opens a new group. */
  lemma StepNew(entries: seq<(UserId, Option<string>)>, i: nat, groups: seq<Group>)
    requires i < |entries| && GroupsSoFar(entries, i, groups)
    requires Counts(entries[i].1) && entries[i].1.value !in Emojis(groups)
    ensures GroupsSoFar(entries, i + 1, groups + [Group(entries[i].1.value, [entries[i].0])])
  {
    var e, u := entries[i].1.value, entries[i].0;
    var r := groups + [Group(e, [u])];
    CountedSnoc(entries, i);
    assert r[..|r| - 1] == groups;
    forall a | 0 <= a < |groups| ensures GroupOk(entries[..i + 1], r[a]) {
      UsersWithSnoc(entries, i, groups[a].emoji);
      assert groups[a].emoji == Emojis(groups)[a];
    }
    assert GroupOk(entries[..i + 1], r[|groups|]) by {
      UsersWithSnoc(entries, i, e);
      assert forall k :: 0 <= k < i ==> entries[..i][k].1 != Some(e);
      UsersWithNone(entries[..i], e);
    }
    assert Emojis(r)[|groups|] == e;
    assert forall a :: 0 <= a < |groups| ==> r[a].emoji == Emojis(groups)[a];
  }

  /** Adding a user to group `j` keeps every group right, given that the new
      entry holds group `j`'s emoji. */
  lemma ExistingGroupsOk(entries: seq<(UserId, Option<string>)>, i: nat, groups: seq<Group>, j: nat)
    requires i < |entries| && GroupsSoFar(entries, i, groups)
    requires Counts(entries[i].1) && j < |groups| && groups[j].emoji == entries[i].1.value
    ensures var r := groups[j := Group(groups[j].emoji, groups[j].users + [entries[i].0])];
      forall a :: 0 <= a < |r| ==> GroupOk(entries[..i + 1], r[a])
  {
    var r := groups[j := Group(groups[j].emoji, groups[j].users + [entries[i].0])];
    forall a | 0 <= a < |r| ensures GroupOk(entries[..i + 1], r[a]) {
      UsersWithSnoc(entries, i, r[a].emoji);
      if a != j {
        assert r[a] == groups[a];
        if a < j {
          assert groups[a].emoji != groups[j].emoji;
        } else {
          assert groups[j].emoji != groups[a].emoji;
        }
      }
    }
  }

  /** Replacing a group by one with the same emoji keeps the emoji keys. */
  lemma SameEmojis(groups: seq<Group>, j: nat, g: Group)
    requires j < |groups| && g.emoji == groups[j].emoji
    ensures Emojis(groups[j := g]) == Emojis(groups)
  {
    assert forall a :: 0 <= a < |groups| ==> Emojis(groups[j := g])[a] == Emojis(groups)[a];
  }

  /** A counted slot with an emoji already present joins that group. */
  lemma StepExisting(entries: seq<(UserId, Option<string>)>, i: nat, groups: seq<Group>, j: nat)
    requires i < |entries| && GroupsSoFar(entries, i, groups)
    requires Counts(entries[i].1) && j < |groups| && groups[j].emoji == entries[i].1.value
    ensures GroupsSoFar(entries, i + 1, groups[j := Group(groups[j].emoji, groups[j].users + [entries[i].0])])
  {
    var r := groups[j := Group(groups[j].emoji, groups[j].users + [entries[i].0])];
    ExistingGroupsOk(entries, i, groups, j);
    SameEmojis(groups, j, r[j]);
    TotalUsersUpdate(groups, j, r[j]);
    CountedSnoc(entries, i);
    assert Emojis(r)[j] == entries[i].1.value;
    assert forall a :: 0 <= a < |r| ==> r[a].emoji == groups[a].emoji;
  }

  /** `reactionCounts[emoji]`: the position of the group of `e`, or
      `|groups|` when there is none yet. */
  method FindGroup(groups: seq<Group>, e: string) returns (j: nat)
    ensures j <= |groups|
    ensures j < |groups| ==> groups[j].emoji == e
    ensures j == |groups| ==> e !in Emojis(groups)
  {
    j := 0;
    while j < |groups| && groups[j].emoji != e
      invariant 0 <= j <= |groups|
      invariant forall a :: 0 <= a < j ==> groups[a].emoji != e
    {
      j := j + 1;
    }
  }

  /** The `reactionCounts` loop (lines 14-22). Each emoji key appears once,
      each group lists exactly the users whose slot holds its emoji, only
      counted slots make groups, every counted slot is in one, and the group
      sizes add up to the number of counted slots. */
  method GroupReactions(entries: seq<(UserId, Option<string>)>) returns (groups: seq<Group>)
    ensures forall i, j :: 0 <= i < j < |groups| ==> groups[i].emoji != groups[j].emoji
    ensures forall g :: g in groups ==> Counts(Some(g.emoji)) && g.users == UsersWith(entries, g.emoji) && g.users != []
    ensures forall k :: 0 <= k < |entries| && Counts(entries[k].1) ==> entries[k].1.value in Emojis(groups)
    ensures TotalUsers(groups) == CountedEntries(entries)
  {
    groups := [];
    var i := 0;
    while i < |entries|
      invariant 0 <= i <= |entries|
      invariant GroupsSoFar(entries, i, groups)
    {
      groups := AddEntry(entries, i, groups);
      i := i + 1;
    }
    GroupsDone(entries, groups);
  }

  /** The `forEach` callback for entry `i`: an uncounted slot is skipped, a
      new emoji opens a group holding the user, and a known one gets the
      user pushed onto its group. */
  method AddEntry(entries: seq<(UserId, Option<string>)>, i: nat, groups: seq<Group>) returns (r: seq<Group>)
    requires i < |entries| && GroupsSoFar(entries, i, groups)
    ensures GroupsSoFar(entries, i + 1, r)
    ensures !Counts(entries[i].1) ==> r == groups
  {
    var u, slot := entries[i].0, entries[i].1;
    if !Counts(slot) {
      StepSkip(entries, i, groups);
      r := groups;
    } else {
      var j := FindGroup(groups, slot.value);
      if j == |groups| {
        StepNew(entries, i, groups);
        r := groups + [Group(slot.value, [u])];
      } else {
        StepExisting(entries, i, groups, j);
        r := groups[j := Group(slot.value, groups[j].users + [u])];
      }
    }
  }

  /** After the last entry the groups describe all of them. */
  lemma GroupsDone(entries: seq<(UserId, Option<string>)>, groups: seq<Group>)
    requires GroupsSoFar(entries, |entries|, groups)
    ensures forall i, j :: 0 <= i < j < |groups| ==> groups[i].emoji != groups[j].emoji
    ensures forall g :: g in groups ==> Counts(Some(g.emoji)) && g.users == UsersWith(entries, g.emoji) && g.users != []
    ensures forall k :: 0 <= k < |entries| && Counts(entries[k].1) ==> entries[k].1.value in Emojis(groups)
    ensures TotalUsers(groups) == CountedEntries(entries)
  {
    assert entries[..|entries|] == entries;
    forall g | g in groups ensures Counts(Some(g.emoji)) && g.users == UsersWith(entries, g.emoji) && g.users != [] {
      var a :| 0 <= a < |groups| && groups[a] == g;
      assert GroupOk(entries[..|entries|], groups[a]);
    }
  }

  /** The user ids of `entries` are pairwise different, as the keys of an
      object are. */
  ghost predicate DistinctUsers(entries: seq<(UserId, Option<string>)>) {
    forall a, b :: 0 <= a < b < |entries| ==> entries[a].0 != entries[b].0
  }

  /** Groups are disjoint: a user found under one emoji is under no other,
      since each user has one slot. */
  lemma GroupsDisjoint(entries: seq<(UserId, Option<string>)>, e1: string, e2: string, u: UserId)
    requires DistinctUsers(entries) && e1 != e2
    requires u in UsersWith(entries, e1)
    ensures u !in UsersWith(entries, e2)
  {
    UsersWithSource(entries, e1, u);
    var k1 :| 0 <= k1 < |entries| && entries[k1] == (u, Some(e1));
    if u in UsersWith(entries, e2) {
      UsersWithSource(entries, e2, u);
    }
  }

  /** A user whose slot is not counted (a removed reaction, `''` or `'null'`)
      is in no group. */
  lemma UncountedInNoGroup(entries: seq<(UserId, Option<string>)>, k: nat, e: string)
    requires DistinctUsers(entries) && k < |entries| && !Counts(entries[k].1) && Counts(Some(e))
    ensures entries[k].0 !in UsersWith(entries, e)
  {
    if entries[k].0 in UsersWith(entries, e) {
      UsersWithSource(entries, e, entries[k].0);
    }
  }

  /** `entries` is what `Object.entries(reactions)` returns: each user once,
      with that user's slot, and every user of `reactions` among them. */
  ghost predicate EntriesOf(reactions: map<UserId, Option<string>>, entries: seq<(UserId, Option<string>)>) {
    && DistinctUsers(entries)
    && (forall k :: 0 <= k < |entries| ==> entries[k].0 in reactions && reactions[entries[k].0] == entries[k].1)
    && (forall u :: u in reactions ==> exists k :: 0 <= k < |entries| && entries[k].0 == u)
  }

  /** An entry whose slot holds `e` puts its user under `e`. */
  lemma {:induction false} UsersWithHolds(entries: seq<(UserId, Option<string>)>, e: string, k: nat)
    requires k < |entries| && entries[k].1 == Some(e)
    ensures entries[k].0 in UsersWith(entries, e)
  {
    var n := |entries|;
    if k < n - 1 {
      UsersWithHolds(entries[..n - 1], e, k);
    }
  }

  /** Read against the message's `reactions` object: the entries are empty
      exactly when the object is, and a user is listed under `e` exactly
      when the user's slot holds `e`. So a chip is highlighted exactly when
      `reactions[currentUserId]` is its emoji. */
  lemma EntriesOfReactions(reactions: map<UserId, Option<string>>, entries: seq<(UserId, Option<string>)>,
                           e: string, u: UserId)
    requires EntriesOf(reactions, entries)
    ensures entries == [] <==> reactions == map[]
    ensures u in UsersWith(entries, e) <==> u in reactions && reactions[u] == Some(e)
  {
    if entries != [] {
      assert entries[0].0 in reactions;
    }
    if u in UsersWith(entries, e) {
      UsersWithSource(entries, e, u);
    }
    if u in reactions && reactions[u] == Some(e) {
      var k :| 0 <= k < |entries| && entries[k].0 == u;
      UsersWithHolds(entries, e, k);
    }
  }

  /** The rendered bar. Nothing at all for an empty (or absent) reactions
      object; otherwise one chip per emoji, showing how many users chose it
      and highlighted exactly when the current user is one of them. */
  method RenderReactions(entries: seq<(UserId, Option<string>)>, currentUserId: UserId) returns (chips: Option<seq<Chip>>)
    ensures chips.None? <==> entries == []
    ensures chips.Some? ==> forall i, j :: 0 <= i < j < |chips.value| ==> chips.value[i].emoji != chips.value[j].emoji
    ensures chips.Some? ==> forall c :: c in chips.value ==>
      && Counts(Some(c.emoji))
      && c.count == |UsersWith(entries, c.emoji)| && c.count > 0
      && (c.highlighted <==> currentUserId in UsersWith(entries, c.emoji))
    ensures chips.Some? ==> forall k :: 0 <= k < |entries| && Counts(entries[k].1) ==>
      exists c :: c in chips.value && c.emoji == entries[k].1.value
  {
    if |entries| == 0 {
      return None;
    }
    var groups := GroupReactions(entries);
    var cs := seq(|groups|, i requires 0 <= i < |groups| =>
      Chip(groups[i].emoji, |groups[i].users|, currentUserId in groups[i].users));
    assert forall i :: 0 <= i < |groups| ==> groups[i] in groups;
    forall k | 0 <= k < |entries| && Counts(entries[k].1)
      ensures exists c :: c in cs && c.emoji == entries[k].1.value
    {
      var i :| 0 <= i < |groups| && Emojis(groups)[i] == entries[k].1.value;
      assert cs[i] in cs;
    }
    chips := Some(cs);
  }
}
