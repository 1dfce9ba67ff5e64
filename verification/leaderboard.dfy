/**
 * The affiliate leaderboard: active, approved rewards (optionally of one
 * form) grouped per owner, the joined listing ordered by four keys and cut
 * into pages with page-relative ranks, and the caller's own rank counted
 * against the same groups under a different final tie-break.
 */
module Leaderboard {
  import opened Wrappers
  import opened Text
  import opened Money
  import opened Seqs
  import opened Affiliates
  import opened Http

  datatype Metric = TotalEarned | TotalReferrals

  datatype Params = Params(formId: Option<string>, metric: Metric, perPage: nat)

  /** Request defaults: rank by earnings, 15 per page, page size clamped into [1, 100]. */
  function ResolveParams(formId: Option<string>, metric: Option<Metric>, perPage: Option<int>): (p: Params)
    ensures p.formId == formId
    ensures metric.None? ==> p.metric == TotalEarned
    ensures metric.Some? ==> p.metric == metric.value
    ensures 1 <= p.perPage <= 100
    ensures perPage.None? ==> p.perPage == 15
    ensures perPage.Some? && 1 <= perPage.value <= 100 ==> p.perPage == perPage.value
    ensures perPage.Some? && perPage.value < 1 ==> p.perPage == 1
    ensures perPage.Some? && perPage.value > 100 ==> p.perPage == 100
  {
    var requested := perPage.GetOr(15);
    var clamped := if requested > 100 then 100 else if requested < 1 then 1 else requested;
    Params(formId, metric.GetOr(TotalEarned), clamped)
  }

  /** A reward the leaderboard counts: active, approved, and of the form when one is given. */
  predicate Counted(r: AffiliateReward, formId: Option<string>) {
    r.isActive && r.status == Approved && (formId.Some? ==> r.formId == formId.value)
  }

  predicate OwnedBy(r: AffiliateReward, formId: Option<string>, owner: Option<string>) {
    Counted(r, formId) && r.userId == owner
  }

  function Owns(formId: Option<string>, owner: Option<string>): AffiliateReward -> bool {
    r => OwnedBy(r, formId, owner)
  }

  /** One row of the per-owner aggregate; a NULL owner forms a group of its own. */
  datatype Group = Group(owner: Option<string>, earned: real, referrals: int, count: nat)

  /** The aggregate of one owner's counted rewards. */
  function GroupOf(rewards: seq<AffiliateReward>, formId: Option<string>, owner: Option<string>): (g: Group)
    ensures g.owner == owner
    ensures g.count == 0 <==> forall j :: 0 <= j < |rewards| ==> !OwnedBy(rewards[j], formId, owner)
  {
    Group(owner,
      SumWhere(rewards, Owns(formId, owner), (r: AffiliateReward) => r.totalEarned),
      IntSumWhere(rewards, Owns(formId, owner), (r: AffiliateReward) => r.totalReferrals),
      Count(rewards, Owns(formId, owner)))
  }

  /** The owners of counted rewards, with repeats. */
  function CountedOwners(rewards: seq<AffiliateReward>, formId: Option<string>): (keys: seq<Option<string>>)
    ensures forall o :: o in keys <==> exists j :: 0 <= j < |rewards| && OwnedBy(rewards[j], formId, o)
  {
    if |rewards| == 0 then []
    else
      var rest := CountedOwners(rewards[1..], formId);
      assert forall j :: 1 <= j < |rewards| ==> rewards[j] == rewards[1..][j - 1];
      (if Counted(rewards[0], formId) then [rewards[0].userId] else []) + rest
  }

  /** `GROUP BY user_id` over the counted rewards: one group per owner, each non-empty. */
  function Groups(rewards: seq<AffiliateReward>, formId: Option<string>): (gs: seq<Group>)
    ensures forall i :: 0 <= i < |gs| ==> gs[i] == GroupOf(rewards, formId, gs[i].owner) && gs[i].count >= 1
    ensures forall i, j :: 0 <= i < j < |gs| ==> gs[i].owner != gs[j].owner
    ensures forall j :: 0 <= j < |rewards| && Counted(rewards[j], formId) ==>
      exists i :: 0 <= i < |gs| && gs[i].owner == rewards[j].userId
  {
    var keys := Dedupe(CountedOwners(rewards, formId));
    var gs := seq(|keys|, i requires 0 <= i < |keys| => GroupOf(rewards, formId, keys[i]));
    forall i | 0 <= i < |gs|
      ensures gs[i].count >= 1
    {
      KeyGroupNonEmpty(rewards, formId, keys[i]);
    }
    forall j | 0 <= j < |rewards| && Counted(rewards[j], formId)
      ensures exists i :: 0 <= i < |gs| && gs[i].owner == rewards[j].userId
    {
      var i := OwnerKey(rewards, formId, j);
      assert gs[i].owner == rewards[j].userId;
    }
    gs
  }

  /** An owner of some counted reward has a non-empty group. */
  lemma KeyGroupNonEmpty(rewards: seq<AffiliateReward>, formId: Option<string>, o: Option<string>)
    requires o in Dedupe(CountedOwners(rewards, formId))
    ensures GroupOf(rewards, formId, o).count >= 1
  {
    var j :| 0 <= j < |rewards| && OwnedBy(rewards[j], formId, o);
  }

  /** The owner of a counted reward is one of the group keys. */
  lemma OwnerKey(rewards: seq<AffiliateReward>, formId: Option<string>, j: nat) returns (i: nat)
    requires j < |rewards| && Counted(rewards[j], formId)
    ensures i < |Dedupe(CountedOwners(rewards, formId))|
    ensures Dedupe(CountedOwners(rewards, formId))[i] == rewards[j].userId
  {
    var keys := Dedupe(CountedOwners(rewards, formId));
    assert OwnedBy(rewards[j], formId, rewards[j].userId);
    assert rewards[j].userId in keys;
    i :| 0 <= i < |keys| && keys[i] == rewards[j].userId;
  }

  datatype User = User(name: string, email: string)

  /** A leaderboard row: an aggregate joined with its owner's account. */
  datatype Row = Row(userId: string, name: string, email: string, earned: real, referrals: int, count: nat)

  predicate Listed(g: Group, users: map<string, User>) {
    g.owner.Some? && g.owner.value in users
  }

  function ListedIn(users: map<string, User>): Group -> bool {
    g => Listed(g, users)
  }

  /** The inner join with `users`: groups without a known owner drop out. */
  function Joined(gs: seq<Group>, users: map<string, User>): (rows: seq<Row>)
    ensures |rows| == Count(gs, ListedIn(users))
    ensures forall k :: 0 <= k < |rows| ==>
      rows[k].userId in users && exists i :: 0 <= i < |gs| && RowOf(gs[i], users, rows[k])
  {
    if |gs| == 0 then []
    else
      var rest := Joined(gs[1..], users);
      assert forall i :: 1 <= i < |gs| ==> gs[i] == gs[1..][i - 1];
      if Listed(gs[0], users) then
        var u := users[gs[0].owner.value];
        var row := Row(gs[0].owner.value, u.name, u.email, gs[0].earned, gs[0].referrals, gs[0].count);
        assert RowOf(gs[0], users, row);
        [row] + rest
      else rest
  }

  /** `row` is group `g` joined with its owner. */
  predicate RowOf(g: Group, users: map<string, User>, row: Row) {
    && g.owner == Some(row.userId) && row.userId in users
    && row.name == users[row.userId].name && row.email == users[row.userId].email
    && row.earned == g.earned && row.referrals == g.referrals && row.count == g.count
  }

  /** The ranking metric of a row or group, and the other metric used as its first tie-break. */
  function Primary(metric: Metric, earned: real, referrals: int): real {
    if metric == TotalReferrals then referrals as real else earned
  }

  function Secondary(metric: Metric, earned: real, referrals: int): real {
    if metric == TotalReferrals then earned else referrals as real
  }

  /**
   * The listing order: metric desc, earned desc, referrals desc, owner name
   * asc. Under either metric this is (primary, secondary) desc, then name.
   */
  predicate ListedBefore(metric: Metric, a: Row, b: Row) {
    var pa := Primary(metric, a.earned, a.referrals);
    var pb := Primary(metric, b.earned, b.referrals);
    pa > pb || (pa == pb &&
      (a.earned > b.earned || (a.earned == b.earned &&
        (a.referrals > b.referrals || (a.referrals == b.referrals && LexLess(a.name, b.name))))))
  }

  lemma ListedBeforeIrreflexive(metric: Metric, a: Row)
    ensures !ListedBefore(metric, a, a)
  {
    LexLessIrreflexive(a.name);
  }

  lemma ListedBeforeTransitive(metric: Metric, a: Row, b: Row, c: Row)
    requires ListedBefore(metric, a, b) && ListedBefore(metric, b, c)
    ensures ListedBefore(metric, a, c)
  {
    if LexLess(a.name, b.name) && LexLess(b.name, c.name) {
      LexLessTransitive(a.name, b.name, c.name);
    }
  }

  predicate SortedFor(metric: Metric, s: seq<Row>) {
    forall i, j :: 0 <= i < j < |s| ==> !ListedBefore(metric, s[j], s[i])
  }

  /** `x` placed after every row it does not precede. */
  function Insert(metric: Metric, x: Row, s: seq<Row>): (r: seq<Row>)
    ensures |r| == |s| + 1
    ensures multiset(r) == multiset(s) + multiset{x}
  {
    if |s| == 0 then [x]
    else if ListedBefore(metric, x, s[0]) then [x] + s
    else
      assert s == [s[0]] + s[1..];
      [s[0]] + Insert(metric, x, s[1..])
  }

  /** Prepending a row that no later row precedes keeps a listing sorted. */
  lemma SortedCons(metric: Metric, y: Row, t: seq<Row>)
    requires SortedFor(metric, t)
    requires forall k :: 0 <= k < |t| ==> !ListedBefore(metric, t[k], y)
    ensures SortedFor(metric, [y] + t)
  {
    var r := [y] + t;
    forall i, j | 0 <= i < j < |r|
      ensures !ListedBefore(metric, r[j], r[i])
    {
      assert r[j] == t[j - 1];
      if i > 0 {
        assert r[i] == t[i - 1];
      }
    }
  }

  lemma {:induction false} InsertSorted(metric: Metric, x: Row, s: seq<Row>)
    requires SortedFor(metric, s)
    ensures SortedFor(metric, Insert(metric, x, s))
  {
    if |s| == 0 {
    } else if ListedBefore(metric, x, s[0]) {
      forall k | 0 <= k < |s|
        ensures !ListedBefore(metric, s[k], x)
      {
        if ListedBefore(metric, s[k], x) {
          ListedBeforeTransitive(metric, s[k], x, s[0]);
          ListedBeforeIrreflexive(metric, s[0]);
        }
      }
      SortedCons(metric, x, s);
    } else {
      var rest := Insert(metric, x, s[1..]);
      assert SortedFor(metric, s[1..]);
      InsertSorted(metric, x, s[1..]);
      forall k | 0 <= k < |rest|
        ensures !ListedBefore(metric, rest[k], s[0])
      {
        assert rest[k] in multiset(rest);
        if rest[k] != x {
          assert rest[k] in multiset(s[1..]);
          var m :| 0 <= m < |s[1..]| && s[1..][m] == rest[k];
          assert s[m + 1] == rest[k];
        }
      }
      SortedCons(metric, s[0], rest);
    }
  }

  /** The listing: the joined rows arranged in listing order. */
  function SortRows(metric: Metric, s: seq<Row>): (r: seq<Row>)
    ensures |r| == |s|
    ensures multiset(r) == multiset(s)
  {
    if |s| == 0 then []
    else
      assert s == s[..|s| - 1] + [s[|s| - 1]];
      Insert(metric, s[|s| - 1], SortRows(metric, s[..|s| - 1]))
  }

  /** The listing is in listing order and holds exactly the joined rows. */
  lemma {:induction false} SortRowsSorted(metric: Metric, s: seq<Row>)
    ensures SortedFor(metric, SortRows(metric, s))
  {
    if |s| > 0 {
      SortRowsSorted(metric, s[..|s| - 1]);
      InsertSorted(metric, s[|s| - 1], SortRows(metric, s[..|s| - 1]));
    }
  }

  /** The page the paginator serves: the requested one when it is a positive number, else the first. */
  function CurrentPage(page: Option<int>): (p: int)
    ensures p >= 1
    ensures page.Some? && page.value >= 1 ==> p == page.value
  {
    if page.Some? && page.value >= 1 then page.value else 1
  }

  /**
   * One rendered leaderboard entry. `totalEarned` is the earned sum rounded
   * to hundredths, the amount `number_format(..., 2, '.', '')` prints
   * (`FormatCents` gives the text).
   */
  datatype Item = Item(rank: int, userId: string, name: string, email: string,
                       totalEarned: Cents, totalReferrals: int, affiliateCount: nat)

  /** A listing row rendered at `rank`, its earnings rounded to hundredths. */
  function RenderRow(rank: int, r: Row): (it: Item)
    ensures it.rank == rank && it.userId == r.userId && it.totalReferrals == r.referrals
    ensures it.totalEarned == RoundHalfAway(r.earned)
  {
    Item(rank, r.userId, r.name, r.email, RoundHalfAway(r.earned), r.referrals, r.count)
  }

  /**
   * The items of page `page`: the slice of the listing it covers, each
   * ranked by its place in the whole listing.
   */
  function PageItems(listing: seq<Row>, page: int, perPage: nat): (items: seq<Item>)
    requires page >= 1 && perPage >= 1
    ensures (page - 1) * perPage >= |listing| ==> |items| == 0
    ensures (page - 1) * perPage < |listing| ==>
      |items| == if |listing| - (page - 1) * perPage < perPage then |listing| - (page - 1) * perPage else perPage
    ensures forall i :: 0 <= i < |items| ==>
      && items[i].rank == (page - 1) * perPage + i + 1
      && 1 <= items[i].rank <= |listing|
      && items[i].userId == listing[items[i].rank - 1].userId
      && items[i].totalReferrals == listing[items[i].rank - 1].referrals
      && items[i].totalEarned == RoundHalfAway(listing[items[i].rank - 1].earned)
  {
    var start := PageStart(page, perPage);
    if start >= |listing| then []
    else
      Slice(listing, start, if |listing| - start < perPage then |listing| - start else perPage)
  }

  /** The first listing position page `page` covers. */
  function PageStart(page: int, perPage: nat): (start: nat)
    requires page >= 1
    ensures start == (page - 1) * perPage
  {
    (page - 1) * perPage
  }

  /** `count` rows of the listing from `start` on, ranked by their place in the listing. */
  function Slice(listing: seq<Row>, start: nat, count: nat): (items: seq<Item>)
    requires start + count <= |listing|
    ensures |items| == count
    decreases count
    ensures forall i {:trigger items[i]} :: 0 <= i < count ==>
      && items[i].rank == start + i + 1
      && items[i].userId == listing[start + i].userId
      && items[i].totalReferrals == listing[start + i].referrals
      && items[i].totalEarned == RoundHalfAway(listing[start + i].earned)
  {
    if count == 0 then []
    else
      var rest := Slice(listing, start + 1, count - 1);
      var items := [RenderRow(start + 1, listing[start])] + rest;
      assert forall i {:trigger items[i]} :: 1 <= i < count ==> items[i] == rest[i - 1];
      items
  }

  function LastPage(total: nat, perPage: nat): nat
    requires perPage >= 1
  {
    if total == 0 then 1 else (total + perPage - 1) / perPage
  }

  /** The caller's own totals, the earnings rounded to hundredths as in `Item`. */
  datatype Summary = Summary(totalEarned: Cents, totalReferrals: int, affiliateCount: nat)

  /**
   * Whether group `g` ranks strictly ahead of the caller `me`, whose totals
   * are `mine`: a higher metric, else a higher other metric, else a smaller
   * owner id. A NULL owner compares false against `me`.
   */
  predicate AheadOf(metric: Metric, g: Group, mine: Group, me: string) {
    var pg := Primary(metric, g.earned, g.referrals);
    var pm := Primary(metric, mine.earned, mine.referrals);
    var sg := Secondary(metric, g.earned, g.referrals);
    var sm := Secondary(metric, mine.earned, mine.referrals);
    pg > pm || (pg == pm && (sg > sm || (sg == sm && g.owner.Some? && LexLess(g.owner.value, me))))
  }

  function Ahead(metric: Metric, mine: Group, me: string): Group -> bool {
    g => AheadOf(metric, g, mine, me)
  }

  /**
   * `my_rank` and `my_summary` as written: both null without a caller or
   * without counted rewards; otherwise the rank is one more than the number
   * of groups ahead, counted over every group, NULL owner included.
   */
  function MyRank(rewards: seq<AffiliateReward>, formId: Option<string>, metric: Metric, me: Option<string>)
    : (r: (Option<int>, Option<Summary>))
    ensures r.0.None? <==> r.1.None?
    ensures r.0.None? <==> me.None? || GroupOf(rewards, formId, me).count == 0
    ensures r.1.Some? ==>
      var mine := GroupOf(rewards, formId, me);
      && r.1.value.totalEarned == RoundHalfAway(mine.earned)
      && r.1.value.totalReferrals == mine.referrals && r.1.value.affiliateCount == mine.count
    ensures r.0.Some? ==> 1 <= r.0.value <= |Groups(rewards, formId)|
    ensures r.0.Some? ==>
      r.0.value == 1 + Count(Groups(rewards, formId), Ahead(metric, GroupOf(rewards, formId, me), me.value))
  {
    if me.None? then (None, None)
    else
      var mine := GroupOf(rewards, formId, me);
      if mine.count == 0 then (None, None)
      else
        var gs := Groups(rewards, formId);
        RankWithinGroups(rewards, formId, metric, me.value);
        (Some(1 + Count(gs, Ahead(metric, mine, me.value))),
         Some(Summary(RoundHalfAway(mine.earned), mine.referrals, mine.count)))
  }

  /** The caller's own group is among the groups and not ahead of itself. */
  lemma OwnGroupPresent(rewards: seq<AffiliateReward>, formId: Option<string>, me: string) returns (k: nat)
    requires GroupOf(rewards, formId, Some(me)).count > 0
    ensures k < |Groups(rewards, formId)|
    ensures Groups(rewards, formId)[k] == GroupOf(rewards, formId, Some(me))
  {
    var gs := Groups(rewards, formId);
    var j :| 0 <= j < |rewards| && OwnedBy(rewards[j], formId, Some(me));
    var i :| 0 <= i < |gs| && gs[i].owner == Some(me);
    k := i;
  }

  lemma RankWithinGroups(rewards: seq<AffiliateReward>, formId: Option<string>, metric: Metric, me: string)
    requires GroupOf(rewards, formId, Some(me)).count > 0
    ensures Count(Groups(rewards, formId), Ahead(metric, GroupOf(rewards, formId, Some(me)), me)) < |Groups(rewards, formId)|
  {
    var mine := GroupOf(rewards, formId, Some(me));
    var k := OwnGroupPresent(rewards, formId, me);
    LexLessIrreflexive(me);
    CountBelowLength(Groups(rewards, formId), Ahead(metric, mine, me), k);
  }

  /** Being ahead is transitive along owners. */
  lemma AheadTransitive(metric: Metric, g: Group, h: Group, mine: Group, v: string, me: string)
    requires h.owner == Some(v)
    requires AheadOf(metric, g, h, v) && AheadOf(metric, h, mine, me)
    ensures AheadOf(metric, g, mine, me)
  {
    if g.owner.Some? && LexLess(g.owner.value, v) && LexLess(v, me) {
      LexLessTransitive(g.owner.value, v, me);
    }
  }

  /** Of two different owners, one is ahead of the other. */
  lemma AheadTotal(metric: Metric, gu: Group, gv: Group, u: string, v: string)
    requires gu.owner == Some(u) && gv.owner == Some(v) && u != v
    ensures AheadOf(metric, gu, gv, v) || AheadOf(metric, gv, gu, u)
  {
    LexLessTotal(u, v);
  }

  /** `my_rank` is a strict total order: two different callers never share a rank. */
  lemma {:induction false} DistinctUsersDistinctRanks(rewards: seq<AffiliateReward>, formId: Option<string>,
                                                      metric: Metric, u: string, v: string)
    requires u != v
    requires MyRank(rewards, formId, metric, Some(u)).0.Some?
    requires MyRank(rewards, formId, metric, Some(v)).0.Some?
    ensures MyRank(rewards, formId, metric, Some(u)).0 != MyRank(rewards, formId, metric, Some(v)).0
  {
    var gs := Groups(rewards, formId);
    var gu := GroupOf(rewards, formId, Some(u));
    var gv := GroupOf(rewards, formId, Some(v));
    var ku := OwnGroupPresent(rewards, formId, u);
    var kv := OwnGroupPresent(rewards, formId, v);
    AheadTotal(metric, gu, gv, u, v);
    if AheadOf(metric, gv, gu, u) {
      AheadImplies(metric, gv, gu, v, u);
      LexLessIrreflexive(v);
      CountStrictMono(gs, Ahead(metric, gv, v), Ahead(metric, gu, u), kv);
    } else {
      AheadImplies(metric, gu, gv, u, v);
      LexLessIrreflexive(u);
      CountStrictMono(gs, Ahead(metric, gu, u), Ahead(metric, gv, v), ku);
    }
  }

  /** Whoever is ahead of `h` (owned by `v`) is ahead of anyone `h` is ahead of. */
  lemma AheadImplies(metric: Metric, h: Group, mine: Group, v: string, me: string)
    requires h.owner == Some(v) && AheadOf(metric, h, mine, me)
    ensures forall g :: Ahead(metric, h, v)(g) ==> Ahead(metric, mine, me)(g)
  {
    forall g | AheadOf(metric, g, h, v)
      ensures AheadOf(metric, g, mine, me)
    {
      AheadTransitive(metric, g, h, mine, v, me);
    }
  }

  function ListedAhead(metric: Metric, mine: Group, me: string, users: map<string, User>): Group -> bool {
    g => AheadOf(metric, g, mine, me) && Listed(g, users)
  }

  /**
   * `my_rank` counted only over the groups the listing shows, that is,
   * groups whose owner is a known user; a NULL-owner group no longer counts.
   */
  function MyRankListed(rewards: seq<AffiliateReward>, users: map<string, User>, formId: Option<string>,
                        metric: Metric, me: Option<string>): (r: Option<int>)
    ensures r.None? <==> me.None? || GroupOf(rewards, formId, me).count == 0
    ensures r.Some? && me.value in users ==> 1 <= r.value <= Count(Groups(rewards, formId), ListedIn(users))
    ensures r.Some? ==>
      r.value == 1 + Count(Groups(rewards, formId), ListedAhead(metric, GroupOf(rewards, formId, me), me.value, users))
  {
    if me.None? then None
    else
      var mine := GroupOf(rewards, formId, me);
      if mine.count == 0 then None
      else
        ListedRankBound(rewards, users, formId, metric, me.value);
        Some(1 + Count(Groups(rewards, formId), ListedAhead(metric, mine, me.value, users)))
  }

  lemma ListedRankBound(rewards: seq<AffiliateReward>, users: map<string, User>, formId: Option<string>,
                        metric: Metric, me: string)
    requires GroupOf(rewards, formId, Some(me)).count > 0
    ensures me in users ==>
      Count(Groups(rewards, formId), ListedAhead(metric, GroupOf(rewards, formId, Some(me)), me, users))
        < Count(Groups(rewards, formId), ListedIn(users))
  {
    if me !in users {
      return;
    }
    var mine := GroupOf(rewards, formId, Some(me));
    var k := OwnGroupPresent(rewards, formId, me);
    LexLessIrreflexive(me);
    CountStrictMono(Groups(rewards, formId), ListedAhead(metric, mine, me, users), ListedIn(users), k);
  }

  /**
   * Where every counted reward has a known owner, the corrected rank is the
   * rank as written: the two differ only through NULL-owner groups.
   */
  lemma {:induction false} ListedRankAgrees(rewards: seq<AffiliateReward>, users: map<string, User>,
                                            formId: Option<string>, metric: Metric, me: Option<string>)
    requires forall j :: 0 <= j < |rewards| && Counted(rewards[j], formId) ==>
      rewards[j].userId.Some? && rewards[j].userId.value in users
    ensures MyRankListed(rewards, users, formId, metric, me) == MyRank(rewards, formId, metric, me).0
  {
    if me.Some? && GroupOf(rewards, formId, me).count > 0 {
      AllGroupsListed(rewards, users, formId);
      ListedAheadCountsAll(rewards, users, formId, metric, me.value);
      var listed := MyRankListed(rewards, users, formId, metric, me);
      var written := MyRank(rewards, formId, metric, me).0;
      assert listed.Some? && written.Some?;
      assert listed.value == written.value;
    }
  }

  /** When every group is listed, counting the listed groups ahead counts every group ahead. */
  lemma ListedAheadCountsAll(rewards: seq<AffiliateReward>, users: map<string, User>, formId: Option<string>,
                             metric: Metric, me: string)
    requires forall i :: 0 <= i < |Groups(rewards, formId)| ==> Listed(Groups(rewards, formId)[i], users)
    ensures var mine := GroupOf(rewards, formId, Some(me));
      Count(Groups(rewards, formId), ListedAhead(metric, mine, me, users))
        == Count(Groups(rewards, formId), Ahead(metric, mine, me))
  {
    var mine := GroupOf(rewards, formId, Some(me));
    CountSame(Groups(rewards, formId), ListedAhead(metric, mine, me, users), Ahead(metric, mine, me));
  }

  lemma AllGroupsListed(rewards: seq<AffiliateReward>, users: map<string, User>, formId: Option<string>)
    requires forall j :: 0 <= j < |rewards| && Counted(rewards[j], formId) ==>
      rewards[j].userId.Some? && rewards[j].userId.value in users
    ensures forall i :: 0 <= i < |Groups(rewards, formId)| ==> Listed(Groups(rewards, formId)[i], users)
  {
    var gs := Groups(rewards, formId);
    forall i | 0 <= i < |gs|
      ensures Listed(gs[i], users)
    {
      var g := gs[i];
      assert g == GroupOf(rewards, formId, g.owner) && g.count >= 1;
      var j :| 0 <= j < |rewards| && OwnedBy(rewards[j], formId, g.owner);
    }
  }

  /** The full response: the page, the caller's rank and summary, and the page metadata. */
  datatype Response = Response(
    items: seq<Item>,
    myRank: Option<int>,
    mySummary: Option<Summary>,
    currentPage: int,
    lastPage: nat,
    perPage: nat,
    totalParticipants: nat)

  /** The request passes validation: a known form, and a page size within [1, 100]. */
  predicate BoardRequestValid(formIds: set<string>, formId: Option<string>, perPage: Option<int>) {
    (formId.Some? ==> formId.value in formIds) && (perPage.Some? ==> 1 <= perPage.value <= 100)
  }

  /**
   * The leaderboard endpoint. `formIds` are the stored forms' ids; an
   * unknown `form_id` or a `per_page` outside [1, 100] answers 422.
   */
  function Board(rewards: seq<AffiliateReward>, users: map<string, User>, formIds: set<string>,
                 formId: Option<string>, metric: Option<Metric>, perPage: Option<int>, page: Option<int>,
                 me: Option<string>)
    : (r: Result<Response, int>)
    ensures r.Failure? <==> !BoardRequestValid(formIds, formId, perPage)
    ensures r.Failure? ==> r.error == Unprocessable
    ensures r.Success? ==>
      && r.value.totalParticipants == Count(Groups(rewards, formId), ListedIn(users))
      && 1 <= r.value.perPage <= 100 && r.value.currentPage >= 1
      && r.value.perPage == perPage.GetOr(15)
      && r.value.myRank == MyRankListed(rewards, users, formId, metric.GetOr(TotalEarned), me)
      && r.value.mySummary == MyRank(rewards, formId, metric.GetOr(TotalEarned), me).1
      && (r.value.myRank.Some? && me.value in users ==> 1 <= r.value.myRank.value <= r.value.totalParticipants)
      && r.value.items == PageItems(Listing(rewards, users, formId, metric.GetOr(TotalEarned)),
                                    r.value.currentPage, r.value.perPage)
  {
    if !BoardRequestValid(formIds, formId, perPage) then Failure(Unprocessable) else
    var p := ResolveParams(formId, metric, perPage);
    var listing := Listing(rewards, users, formId, p.metric);
    var current := CurrentPage(page);
    var rank := MyRankListed(rewards, users, formId, p.metric, me);
    var summary := MyRank(rewards, formId, p.metric, me).1;
    Success(Response(PageItems(listing, current, p.perPage), rank, summary, current,
                     LastPage(|listing|, p.perPage), p.perPage, |listing|))
  }

  /** The joined groups in listing order. */
  function Listing(rewards: seq<AffiliateReward>, users: map<string, User>, formId: Option<string>, metric: Metric)
    : (listing: seq<Row>)
    ensures |listing| == Count(Groups(rewards, formId), ListedIn(users))
  {
    SortRows(metric, Joined(Groups(rewards, formId), users))
  }

  /** A reward of 100.00 earned over one referral, owned by `owner`. */
  function TieReward(id: string, owner: string): AffiliateReward {
    AffiliateReward(id, "f", Some(owner), id, Percentage, 1000, 10000.0, 1, true, Approved, None, None, None)
  }

  const TieRewards := [TieReward("ra", "a"), TieReward("rb", "b")]
  const TieUsers := map["a" := User("Zed", "z@x"), "b" := User("Amy", "a@x")]

  /** Two counted rewards of different owners form two single-reward groups, in table order. */
  lemma {:induction false} TwoGroups(r1: AffiliateReward, r2: AffiliateReward)
    requires Counted(r1, None) && Counted(r2, None) && r1.userId != r2.userId
    ensures Groups([r1, r2], None) ==
      [Group(r1.userId, r1.totalEarned, r1.totalReferrals, 1), Group(r2.userId, r2.totalEarned, r2.totalReferrals, 1)]
  {
    var rewards := [r1, r2];
    var tail := rewards[1..];
    assert tail == [r2] && tail[1..] == [];
    assert CountedOwners(tail[1..], None) == [];
    assert CountedOwners(rewards, None) == [r1.userId, r2.userId];
    var keys := [r1.userId, r2.userId];
    assert keys[..1] == [r1.userId] && keys[..1][..0] == [];
    assert Dedupe(keys[..1][..0]) == [];
    assert Dedupe(keys[..1]) == [r1.userId];
    assert keys[|keys| - 1] !in Dedupe(keys[..1]);
    assert Dedupe(keys) == keys;
    TwoGroupOf(r1, r2, r1.userId);
    TwoGroupOf(r1, r2, r2.userId);
    var gs := Groups(rewards, None);
    assert |gs| == 2;
    assert gs[0] == GroupOf(rewards, None, r1.userId);
    assert gs[1] == GroupOf(rewards, None, r2.userId);
  }

  lemma {:induction false} TwoGroupOf(r1: AffiliateReward, r2: AffiliateReward, o: Option<string>)
    requires Counted(r1, None) && Counted(r2, None) && r1.userId != r2.userId
    requires o == r1.userId || o == r2.userId
    ensures GroupOf([r1, r2], None, o) ==
      if o == r1.userId then Group(o, r1.totalEarned, r1.totalReferrals, 1)
      else Group(o, r2.totalEarned, r2.totalReferrals, 1)
  {
    var rewards := [r1, r2];
    var p := Owns(None, o);
    var tail := rewards[1..];
    assert tail == [r2] && tail[1..] == [];
    assert p(r1) <==> o == r1.userId;
    assert p(r2) <==> o == r2.userId;
    assert Count(tail, p) == (if o == r2.userId then 1 else 0) by {
      assert Count(tail[1..], p) == 0;
    }
    assert SumWhere(tail, p, (r: AffiliateReward) => r.totalEarned) == (if o == r2.userId then r2.totalEarned else 0.0) by {
      assert SumWhere(tail[1..], p, (r: AffiliateReward) => r.totalEarned) == 0.0;
    }
    assert IntSumWhere(tail, p, (r: AffiliateReward) => r.totalReferrals) == (if o == r2.userId then r2.totalReferrals else 0) by {
      assert IntSumWhere(tail[1..], p, (r: AffiliateReward) => r.totalReferrals) == 0;
    }
  }

  lemma TieGroupOf(owner: string)
    requires owner == "a" || owner == "b"
    ensures GroupOf(TieRewards, None, Some(owner)) == Group(Some(owner), 10000.0, 1, 1)
  {
    TwoGroupOf(TieReward("ra", "a"), TieReward("rb", "b"), Some(owner));
  }

  lemma TieGroupsComputed()
    ensures Groups(TieRewards, None) == [Group(Some("a"), 10000.0, 1, 1), Group(Some("b"), 10000.0, 1, 1)]
  {
    TwoGroups(TieReward("ra", "a"), TieReward("rb", "b"));
  }

  const TieRowA := Row("a", "Zed", "z@x", 10000.0, 1, 1)
  const TieRowB := Row("b", "Amy", "a@x", 10000.0, 1, 1)

  /** Equal totals: the listing puts "Amy" (id "b") before "Zed" (id "a"). */
  lemma TieListing()
    ensures Listing(TieRewards, TieUsers, None, TotalEarned) == [TieRowB, TieRowA]
  {
    TieJoined();
    TieSorted();
  }

  /** Joining the two groups with their owners gives one row each, in group order. */
  lemma TieJoined()
    ensures Joined(Groups(TieRewards, None), TieUsers) == [TieRowA, TieRowB]
  {
    TieGroupsComputed();
    var gs := Groups(TieRewards, None);
    assert gs[1..][1..] == [];
    assert Joined(gs[1..][1..], TieUsers) == [];
    assert Joined(gs[1..], TieUsers) == [TieRowB];
  }

  /** Sorting by total earned puts the tied rows in name order. */
  lemma TieSorted()
    ensures SortRows(TotalEarned, [TieRowA, TieRowB]) == [TieRowB, TieRowA]
  {
    assert LexLess("Amy", "Zed");
    assert [TieRowA, TieRowB][..1] == [TieRowA];
    assert SortRows(TotalEarned, [TieRowA]) == [TieRowA] by {
      assert [TieRowA][..0] == [];
    }
    assert Insert(TotalEarned, TieRowB, [TieRowA]) == [TieRowB, TieRowA];
  }

  /** A two-element count is the sum of its two indicator terms. */
  lemma CountPair(g1: Group, g2: Group, p: Group -> bool)
    ensures Count([g1, g2], p) == (if p(g1) then 1 else 0) + (if p(g2) then 1 else 0)
  {
    assert [g1, g2][1..] == [g2];
    assert [g2][1..] == [];
  }

  /** With equal totals, the group with the smaller id is ahead of "b" and nothing is ahead of "a". */
  lemma TieAheadCounts()
    ensures var gs := Groups(TieRewards, None);
      && Count(gs, Ahead(TotalEarned, GroupOf(TieRewards, None, Some("b")), "b")) == 1
      && Count(gs, Ahead(TotalEarned, GroupOf(TieRewards, None, Some("a")), "a")) == 0
  {
    TieGroupsComputed();
    TieGroupOf("a");
    TieGroupOf("b");
    var ga := Group(Some("a"), 10000.0, 1, 1);
    var gb := Group(Some("b"), 10000.0, 1, 1);
    TieAheadOfB(ga, gb);
    TieNothingAheadOfA(ga, gb);
  }

  lemma TieAheadOfB(ga: Group, gb: Group)
    requires ga == Group(Some("a"), 10000.0, 1, 1) && gb == Group(Some("b"), 10000.0, 1, 1)
    ensures Count([ga, gb], Ahead(TotalEarned, gb, "b")) == 1
  {
    assert LexLess("a", "b");
    LexLessIrreflexive("b");
    CountPair(ga, gb, Ahead(TotalEarned, gb, "b"));
  }

  lemma TieNothingAheadOfA(ga: Group, gb: Group)
    requires ga == Group(Some("a"), 10000.0, 1, 1) && gb == Group(Some("b"), 10000.0, 1, 1)
    ensures Count([ga, gb], Ahead(TotalEarned, ga, "a")) == 0
  {
    LexLessIrreflexive("a");
    assert LexLess("a", "b");
    LexLessAsymmetric("a", "b");
    CountPair(ga, gb, Ahead(TotalEarned, ga, "a"));
  }

  /** A caller with counted rewards and `n` groups ahead has rank n + 1. */
  lemma RankFromAhead(rewards: seq<AffiliateReward>, formId: Option<string>, metric: Metric, me: string, n: nat)
    requires GroupOf(rewards, formId, Some(me)).count > 0
    requires Count(Groups(rewards, formId), Ahead(metric, GroupOf(rewards, formId, Some(me)), me)) == n
    ensures MyRank(rewards, formId, metric, Some(me)).0.Some?
    ensures MyRank(rewards, formId, metric, Some(me)).0.value == n + 1
  {
  }

  lemma TieRankB()
    ensures MyRank(TieRewards, None, TotalEarned, Some("b")).0 == Some(2)
  {
    TieGroupOf("b");
    TieAheadCounts();
    RankFromAhead(TieRewards, None, TotalEarned, "b", 1);
  }

  lemma TieRankA()
    ensures MyRank(TieRewards, None, TotalEarned, Some("a")).0 == Some(1)
  {
    TieGroupOf("a");
    TieGroupsComputed();
    TieNothingAheadOfA(Group(Some("a"), 10000.0, 1, 1), Group(Some("b"), 10000.0, 1, 1));
    RankFromAhead(TieRewards, None, TotalEarned, "a", 0);
  }

  /**
   * The listing and `my_rank` can disagree. Two owners with equal totals
   * are listed by name, so "Amy" (id "b") is shown at rank 1, while
   * `my_rank` breaks the tie by id and gives "b" rank 2.
   */
  lemma ListingDisagreesWithMyRank()
    ensures var page := PageItems(Listing(TieRewards, TieUsers, None, TotalEarned), 1, 15);
      && |page| == 2 && page[0].rank == 1 && page[0].userId == "b"
      && MyRank(TieRewards, None, TotalEarned, Some("b")).0 == Some(2)
      && MyRank(TieRewards, None, TotalEarned, Some("a")).0 == Some(1)
  {
    TieListing();
    TieRankA();
    TieRankB();
  }

  /** An approved 500.00 reward whose owner column is NULL. */
  const NullOwned := AffiliateReward("rn", "f", None, "rn", Percentage, 1000, 50000.0, 5, true, Approved, None, None, None)
  const OneUser := map["u" := User("Uma", "u@x")]

  /**
   * A NULL-owner group outranks the only listed user: the listing shows one
   * participant, but `my_rank` as written puts that user second.
   */
  lemma NullOwnerRankExceedsParticipants()
    ensures var rewards := [NullOwned, TieReward("ru", "u")];
      && Count(Groups(rewards, None), ListedIn(OneUser)) == 1
      && MyRank(rewards, None, TotalEarned, Some("u")).0 == Some(2)
      && MyRankListed(rewards, OneUser, None, TotalEarned, Some("u")) == Some(1)
  {
    var rewards := [NullOwned, TieReward("ru", "u")];
    NullGroups();
    NullListedCount();
    NullAheadCount();
    NullListedAheadCount();
    RankFromAhead(rewards, None, TotalEarned, "u", 1);
    ListedRankFromAhead(rewards, OneUser, None, TotalEarned, "u", 0);
  }

  const NullGroup := Group(None, 50000.0, 5, 1)
  const UserGroup := Group(Some("u"), 10000.0, 1, 1)

  /** The NULL owner and "u" form one group each, in table order. */
  lemma NullGroups()
    ensures Groups([NullOwned, TieReward("ru", "u")], None) == [NullGroup, UserGroup]
    ensures GroupOf([NullOwned, TieReward("ru", "u")], None, Some("u")) == UserGroup
  {
    TwoGroups(NullOwned, TieReward("ru", "u"));
    TwoGroupOf(NullOwned, TieReward("ru", "u"), Some("u"));
  }

  lemma NullListedCount()
    ensures Count([NullGroup, UserGroup], ListedIn(OneUser)) == 1
  {
    CountPair(NullGroup, UserGroup, ListedIn(OneUser));
  }

  lemma NullAheadCount()
    ensures Count([NullGroup, UserGroup], Ahead(TotalEarned, UserGroup, "u")) == 1
  {
    LexLessIrreflexive("u");
    CountPair(NullGroup, UserGroup, Ahead(TotalEarned, UserGroup, "u"));
  }

  lemma NullListedAheadCount()
    ensures Count([NullGroup, UserGroup], ListedAhead(TotalEarned, UserGroup, "u", OneUser)) == 0
  {
    LexLessIrreflexive("u");
    CountPair(NullGroup, UserGroup, ListedAhead(TotalEarned, UserGroup, "u", OneUser));
  }

  /** A caller with counted rewards and `n` listed groups ahead has corrected rank n + 1. */
  lemma ListedRankFromAhead(rewards: seq<AffiliateReward>, users: map<string, User>, formId: Option<string>,
                            metric: Metric, me: string, n: nat)
    requires GroupOf(rewards, formId, Some(me)).count > 0
    requires Count(Groups(rewards, formId), ListedAhead(metric, GroupOf(rewards, formId, Some(me)), me, users)) == n
    ensures MyRankListed(rewards, users, formId, metric, Some(me)).Some?
    ensures MyRankListed(rewards, users, formId, metric, Some(me)).value == n + 1
  {
  }
}
