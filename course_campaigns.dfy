/**
 * Per-campaign metric aggregation (Api\CourseController::campaigns): for
 * each post only its latest metric counts; reach, interactions and
 * engagement are summed with null read as 0, and the CTR is guarded
 * against a zero reach.
 */
module CourseCampaigns {
  import opened Wrappers

  /** One metric snapshot of a post; `createdAt` orders the history. */
  datatype Metric = Metric(
    createdAt: int,
    reach: Option<int>,
    likes: Option<int>,
    comments: Option<int>,
    shares: Option<int>,
    engagement: Option<int>)

  datatype Post = Post(id: int, metrics: seq<Metric>)

  datatype Campaign = Campaign(id: int, name: string, posts: seq<Post>)

  datatype CourseVersion = CourseVersion(id: int)

  datatype CampaignMetrics = CampaignMetrics(
    totalPosts: nat,
    totalReach: int,
    totalInteractions: int,
    totalPreRegistrations: int,
    averageCtr: real)

  datatype CampaignEntry = CampaignEntry(id: int, name: string, metrics: CampaignMetrics)

  datatype CourseReport = CourseReport(totalVersions: nat, totalCampaigns: nat, campaigns: seq<CampaignEntry>)

  /** `k` is the first position holding the greatest `createdAt`. */
  predicate FirstNewest(ms: seq<Metric>, k: int) {
    && 0 <= k < |ms|
    && (forall j | 0 <= j < |ms| :: ms[j].createdAt <= ms[k].createdAt)
    && (forall j | 0 <= j < k :: ms[j].createdAt < ms[k].createdAt)
  }

  /**
   * `sortByDesc('created_at')->first()`: the newest metric; the sort is
   * stable, so among equally new ones the earliest listed wins.
   */
  function Latest(ms: seq<Metric>): (r: Option<Metric>)
    ensures r.None? <==> ms == []
  {
    if ms == [] then None
    else
      var rest := Latest(ms[1..]);
      if rest.None? || ms[0].createdAt >= rest.value.createdAt then Some(ms[0]) else rest
  }

  /** The latest metric is the one at the first newest position. */
  lemma {:induction false} LatestIsFirstNewest(ms: seq<Metric>)
    requires ms != []
    ensures exists k :: FirstNewest(ms, k) && Latest(ms) == Some(ms[k])
  {
    if |ms| == 1 {
      assert FirstNewest(ms, 0);
    } else {
      var tail := ms[1..];
      LatestIsFirstNewest(tail);
      var k' :| FirstNewest(tail, k') && Latest(tail) == Some(tail[k']);
      if ms[0].createdAt >= tail[k'].createdAt {
        assert FirstNewest(ms, 0) by {
          forall j | 0 < j < |ms| ensures ms[j].createdAt <= ms[0].createdAt {
            assert ms[j] == tail[j - 1];
          }
        }
      } else {
        assert FirstNewest(ms, k' + 1) by {
          forall j | 0 <= j < |ms| ensures ms[j].createdAt <= ms[k' + 1].createdAt {
            if j > 0 { assert ms[j] == tail[j - 1]; }
          }
          forall j | 0 <= j < k' + 1 ensures ms[j].createdAt < ms[k' + 1].createdAt {
            if j > 0 { assert ms[j] == tail[j - 1]; }
          }
        }
      }
    }
  }

  /** Conversely, the first newest metric is the one selected. */
  lemma FirstNewestIsLatest(ms: seq<Metric>, k: int)
    requires FirstNewest(ms, k)
    ensures Latest(ms) == Some(ms[k])
  {
    LatestIsFirstNewest(ms);
    var k' :| FirstNewest(ms, k') && Latest(ms) == Some(ms[k']);
    assert ms[k'].createdAt <= ms[k].createdAt && ms[k].createdAt <= ms[k'].createdAt;
  }

  /** What one post adds to a total: `field ?? 0` of its latest metric, 0 without metrics. */
  function ReachOf(m: Option<Metric>): int {
    if m.Some? then m.value.reach.GetOr(0) else 0
  }

  function LikesOf(m: Option<Metric>): int {
    if m.Some? then m.value.likes.GetOr(0) else 0
  }

  function CommentsOf(m: Option<Metric>): int {
    if m.Some? then m.value.comments.GetOr(0) else 0
  }

  function SharesOf(m: Option<Metric>): int {
    if m.Some? then m.value.shares.GetOr(0) else 0
  }

  function InteractionsOf(m: Option<Metric>): int {
    if m.Some? then m.value.likes.GetOr(0) + m.value.comments.GetOr(0) + m.value.shares.GetOr(0) else 0
  }

  function EngagementOf(m: Option<Metric>): int {
    if m.Some? then m.value.engagement.GetOr(0) else 0
  }

  /** The sum, over the posts, of `part` applied to each post's latest metric. */
  function Total(posts: seq<Post>, part: Option<Metric> -> int): (r: int)
    ensures (forall i | 0 <= i < |posts| :: part(Latest(posts[i].metrics)) >= 0) ==> r >= 0
    ensures (forall i | 0 <= i < |posts| :: part(Latest(posts[i].metrics)) == 0) ==> r == 0
  {
    if posts == [] then 0
    else Total(posts[..|posts| - 1], part) + part(Latest(posts[|posts| - 1].metrics))
  }

  /** `average_ctr` before rounding: engagement per reach in percent, 0 unless reach is positive. */
  function Ctr(engagement: int, reach: int): (r: real)
    ensures reach > 0 ==> r * reach as real == engagement as real * 100.0
    ensures reach <= 0 ==> r == 0.0
  {
    if reach > 0 then (engagement as real / reach as real) * 100.0 else 0.0
  }

  /** The `metrics` block of one campaign. */
  function Summarize(c: Campaign): (r: CampaignMetrics)
    ensures r.totalPosts == |c.posts| && r.totalPreRegistrations == 0
  {
    var reach := Total(c.posts, ReachOf);
    CampaignMetrics(|c.posts|, reach, Total(c.posts, InteractionsOf), 0,
                    Ctr(Total(c.posts, EngagementOf), reach))
  }

  /** The closure run for each campaign: two passes over its posts. */
  method Aggregate(c: Campaign) returns (m: CampaignMetrics)
    ensures m == Summarize(c)
  {
    var totalReach, totalInteractions := 0, 0;
    for i := 0 to |c.posts|
      invariant totalReach == Total(c.posts[..i], ReachOf)
      invariant totalInteractions == Total(c.posts[..i], InteractionsOf)
    {
      assert c.posts[..i + 1][..i] == c.posts[..i];
      var latest := Latest(c.posts[i].metrics);
      if latest.Some? {
        totalReach := totalReach + latest.value.reach.GetOr(0);
        totalInteractions := totalInteractions
          + (latest.value.likes.GetOr(0) + latest.value.comments.GetOr(0) + latest.value.shares.GetOr(0));
      }
    }

    var totalEngagement := 0;
    for i := 0 to |c.posts|
      invariant totalEngagement == Total(c.posts[..i], EngagementOf)
    {
      assert c.posts[..i + 1][..i] == c.posts[..i];
      var latest := Latest(c.posts[i].metrics);
      if latest.Some? {
        totalEngagement := totalEngagement + latest.value.engagement.GetOr(0);
      }
    }
    var averageCtr := if totalReach > 0 then (totalEngagement as real / totalReach as real) * 100.0 else 0.0;

    assert c.posts[..|c.posts|] == c.posts;
    m := CampaignMetrics(|c.posts|, totalReach, totalInteractions, 0, averageCtr);
  }

  /** The response: one entry per campaign, in order, plus the two counts. */
  function Report(versions: seq<CourseVersion>, campaigns: seq<Campaign>): (r: CourseReport)
    ensures r.totalVersions == |versions| && r.totalCampaigns == |campaigns|
    ensures |r.campaigns| == |campaigns|
    ensures forall i | 0 <= i < |campaigns| ::
      r.campaigns[i].id == campaigns[i].id && r.campaigns[i].metrics == Summarize(campaigns[i])
  {
    CourseReport(|versions|, |campaigns|,
                 seq(|campaigns|, i requires 0 <= i < |campaigns| =>
                   CampaignEntry(campaigns[i].id, campaigns[i].name, Summarize(campaigns[i]))))
  }

  /** Reach is never negative when no snapshot records a negative reach. */
  lemma {:induction false} TotalReachNonNegative(posts: seq<Post>)
    requires forall i, j | 0 <= i < |posts| && 0 <= j < |posts[i].metrics| :: posts[i].metrics[j].reach.GetOr(0) >= 0
    ensures Total(posts, ReachOf) >= 0
  {
    if posts != [] {
      var init := posts[..|posts| - 1];
      var ms := posts[|posts| - 1].metrics;
      assert forall i | 0 <= i < |init| :: init[i] == posts[i];
      TotalReachNonNegative(init);
      if ms != [] {
        LatestIsFirstNewest(ms);
      }
    }
  }

  /** Interactions are likes, comments and shares summed separately. */
  lemma {:induction false} InteractionsSplit(posts: seq<Post>)
    ensures Total(posts, InteractionsOf)
         == Total(posts, LikesOf) + Total(posts, CommentsOf) + Total(posts, SharesOf)
  {
    if posts != [] {
      InteractionsSplit(posts[..|posts| - 1]);
    }
  }

  /** Only the latest snapshot counts: a post's older snapshots can change without changing any total. */
  lemma {:induction false} OnlyLatestCounts(posts: seq<Post>, posts': seq<Post>, part: Option<Metric> -> int)
    requires |posts| == |posts'|
    requires forall i | 0 <= i < |posts| :: Latest(posts[i].metrics) == Latest(posts'[i].metrics)
    ensures Total(posts, part) == Total(posts', part)
  {
    if posts != [] {
      var n := |posts| - 1;
      assert forall i | 0 <= i < n :: posts[..n][i] == posts[i] && posts'[..n][i] == posts'[i];
      OnlyLatestCounts(posts[..n], posts'[..n], part);
    }
  }

  /** A post without metrics adds nothing, but is still counted in `total_posts`. */
  lemma PostWithoutMetrics(c: Campaign, p: Post)
    requires p.metrics == []
    ensures var c' := c.(posts := c.posts + [p]);
      Summarize(c').totalReach == Summarize(c).totalReach
      && Summarize(c').totalInteractions == Summarize(c).totalInteractions
      && Summarize(c').averageCtr == Summarize(c).averageCtr
      && Summarize(c').totalPosts == Summarize(c).totalPosts + 1
  {
    var c' := c.(posts := c.posts + [p]);
    assert c'.posts[..|c'.posts| - 1] == c.posts;
  }
}
