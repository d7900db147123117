/** One iteration of the crawl loop: pick the next user, link their profile
    and posts to the users of the sliding window at distances 0, 1 and 2,
    store their followees, and mark the oldest window member completed. */
module Crawling {
  import opened Wrappers
  import opened GraphManager

  /** The social network behind a crawler (get_first_user, get_user_profile,
      get_user_resources, get_user_followees). */
  datatype Source = Source(
    firstUser: UserInfo,
    profile: User -> Option<ResourceInfo>,
    posts: User -> seq<ResourceInfo>,
    followees: User -> seq<UserInfo>)

  /** What a step did: the user visited and the window member it completed,
      or nothing because `User.get` found no user to visit. */
  datatype StepOutcome = Visited(user: User, evicted: Option<User>) | NoUncompletedUser

  // ---------------------------------------------------------------- selection

  /** The filter of the `User.get` query: an uncompleted user of the network
      other than the first and second window members, when present. */
  function IsCandidate(sn: string, window: seq<User>): User -> bool {
    (u: User) => u.socialNetwork == sn && !u.completed
      && (|window| >= 1 ==> u.uid != window[0].uid)
      && (|window| >= 2 ==> u.uid != window[1].uid)
  }

  function SelectUser(users: seq<User>, sn: string, window: seq<User>): Option<nat> {
    FirstIndex(users, IsCandidate(sn, window))
  }

  /** With at most two users in the window, the selected user is the first
      uncompleted user of the network outside the window; there is none
      exactly when every uncompleted user of the network is in the window. */
  lemma SelectUserSpec(users: seq<User>, sn: string, window: seq<User>)
    requires |window| <= 2
    ensures SelectUser(users, sn, window).Some? ==>
      var i := SelectUser(users, sn, window).value;
      && i < |users| && users[i].socialNetwork == sn && !users[i].completed
      && (forall w :: w in window ==> users[i].uid != w.uid)
      && (forall j :: 0 <= j < i ==> !IsCandidate(sn, window)(users[j]))
    ensures SelectUser(users, sn, window).None? ==>
      forall j :: 0 <= j < |users| && users[j].socialNetwork == sn && !users[j].completed ==>
        exists w :: w in window && w.uid == users[j].uid
  {
    var found := SelectUser(users, sn, window);
    if found.None? {
      forall j | 0 <= j < |users| && users[j].socialNetwork == sn && !users[j].completed
        ensures exists w :: w in window && w.uid == users[j].uid
      {
        assert !IsCandidate(sn, window)(users[j]);
        if users[j].uid == window[0].uid {
          assert window[0] in window;
        } else {
          assert window[1] in window;
        }
      }
    }
  }

  // ---------------------------------------------------------------- the window

  datatype Advanced = Advanced(window: seq<User>, evicted: Option<User>)

  /** `active_users.insert(0, user)` and, once the window holds three users,
      `active_users.pop()`. */
  function Advance(window: seq<User>, u: User): Advanced {
    var active := [u] + window;
    if |active| == 3 then Advanced(active[..2], Some(active[2])) else Advanced(active, None)
  }

  /** The visited user heads the window, which keeps at most two users
      between steps; the oldest user leaves it exactly when it was full. */
  lemma AdvanceSpec(window: seq<User>, u: User)
    requires |window| <= 2
    ensures var a := Advance(window, u);
      && 1 <= |a.window| <= 2 && a.window[0] == u
      && (a.evicted.Some? <==> |window| == 2)
      && (a.evicted.Some? ==> a.evicted.value == window[1] && a.window == [u, window[0]])
      && (a.evicted.None? ==> a.window == [u] + window)
  {
  }

  /** Visiting U1, U2, U3, U4 from an empty window completes U1 in the third
      step and U2 in the fourth. */
  lemma CompletionOrder(u1: User, u2: User, u3: User, u4: User)
    ensures var s1 := Advance([], u1);
      var s2 := Advance(s1.window, u2);
      var s3 := Advance(s2.window, u3);
      var s4 := Advance(s3.window, u4);
      && s1.evicted == None && s2.evicted == None
      && s3.evicted == Some(u1) && s3.window == [u3, u2]
      && s4.evicted == Some(u2) && s4.window == [u4, u3]
  {
  }

  // ---------------------------------------------------------------- edges

  /** The edges of a profile resource. */
  function ProfileEdges(active: seq<User>, rid: nat): seq<ResourceUser>
    requires 1 <= |active|
  {
    [ResourceUser(active[0].uid, rid, 0)]
      + (if |active| >= 2 then [ResourceUser(active[1].uid, rid, 1)] else [])
      + (if |active| == 3 then [ResourceUser(active[2].uid, rid, 2)] else [])
  }

  /** A profile is linked to every window member at its position in the window. */
  lemma ProfileEdgesSpec(active: seq<User>, rid: nat)
    requires 1 <= |active| <= 3
    ensures |ProfileEdges(active, rid)| == |active|
    ensures forall i :: 0 <= i < |active| ==> ProfileEdges(active, rid)[i] == ResourceUser(active[i].uid, rid, i)
  {
  }

  /** The edges of a post resource. */
  function PostEdges(active: seq<User>, rid: nat): seq<ResourceUser>
    requires 1 <= |active|
  {
    [ResourceUser(active[0].uid, rid, 1)] + (if |active| >= 2 then [ResourceUser(active[1].uid, rid, 2)] else [])
  }

  /** A post is linked to the first two window members at their position
      plus one, so never at distance 0. */
  lemma PostEdgesSpec(active: seq<User>, rid: nat)
    requires 1 <= |active|
    ensures |PostEdges(active, rid)| == if |active| >= 2 then 2 else 1
    ensures forall i :: 0 <= i < |PostEdges(active, rid)| ==>
      PostEdges(active, rid)[i] == ResourceUser(active[i].uid, rid, i + 1)
  {
  }

  /** Which part of the loop body links a resource: the profile or a post. */
  datatype Part = ProfilePart | PostPart

  function PartEdges(part: Part, active: seq<User>, rid: nat): seq<ResourceUser>
    requires 1 <= |active|
  {
    match part
    case ProfilePart => ProfileEdges(active, rid)
    case PostPart => PostEdges(active, rid)
  }

  /** add_resource followed, when it returns a resource, by the part's edges to it. */
  function IngestAndLink(t: Tables, info: ResourceInfo, nlp: Analyzer, part: Part, active: seq<User>): Tables
    requires 1 <= |active|
  {
    var ingested := IngestResource(t, info, nlp);
    if ingested.1.None? then ingested.0
    else ingested.0.(resourceUsers := ingested.0.resourceUsers + PartEdges(part, active, ingested.1.value.uid))
  }

  /** The profile part of a step: add_resource, then edges when it returns a resource. */
  function LinkProfile(t: Tables, active: seq<User>, profile: Option<ResourceInfo>, nlp: Analyzer): Tables
    requires 1 <= |active|
  {
    if profile.None? then t else IngestAndLink(t, profile.value, nlp, ProfilePart, active)
  }

  /** The loop over posts. */
  function LinkPosts(t: Tables, active: seq<User>, posts: seq<ResourceInfo>, nlp: Analyzer): Tables
    requires 1 <= |active|
    decreases |posts|
  {
    if posts == [] then t
    else IngestAndLink(LinkPosts(t, active, posts[..|posts| - 1], nlp), posts[|posts| - 1], nlp, PostPart, active)
  }

  /** The loop over followees: add_user for each. */
  function AddFollowees(t: Tables, followees: seq<UserInfo>): Tables
    decreases |followees|
  {
    if followees == [] then t
    else
      var t1 := AddFollowees(t, followees[..|followees| - 1]);
      t1.(users := UpsertUser(t1.users, followees[|followees| - 1]).0)
  }

  /** `old_user.completed = True; old_user.save()` */
  function Complete(t: Tables, evicted: Option<User>): Tables {
    if evicted.Some? && evicted.value.uid < |t.users|
    then t.(users := t.users[evicted.value.uid := evicted.value.(completed := true)])
    else t
  }

  // ---------------------------------------------------------------- one step

  /** The store, the window and the first-run flag after a step, and what it did. */
  datatype Crawl = Crawl(tables: Tables, window: seq<User>, firstRun: bool, outcome: StepOutcome)

  /** Visiting user `u`: everything in the loop body after the selection. */
  function Visit(t: Tables, window: seq<User>, u: User, src: Source, nlp: Analyzer): Crawl {
    var active := [u] + window;
    var linked := LinkPosts(LinkProfile(t, active, src.profile(u), nlp), active, src.posts(u), nlp);
    var a := Advance(window, u);
    Crawl(Complete(AddFollowees(linked, src.followees(u)), a.evicted), a.window, false, Visited(u, a.evicted))
  }

  /** One iteration of the loop of Crawler.run. */
  function CrawlStep(t: Tables, window: seq<User>, firstRun: bool, sn: string, src: Source, nlp: Analyzer): Crawl {
    if firstRun then
      var added := UpsertUser(t.users, src.firstUser);
      Visit(t.(users := added.0), window, added.1, src, nlp)
    else
      match SelectUser(t.users, sn, window)
      case None => Crawl(t, window, firstRun, NoUncompletedUser)
      case Some(i) => Visit(t, window, t.users[i], src, nlp)
  }

  // ---------------------------------------------------------------- invariants

  /** Each window member is the stored row with its key. */
  ghost predicate InStore(t: Tables, w: seq<User>) {
    forall i :: 0 <= i < |w| ==> w[i].uid < |t.users| && t.users[w[i].uid] == w[i]
  }

  predicate DistinctUids(w: seq<User>) {
    forall i, j :: 0 <= i < j < |w| ==> w[i].uid != w[j].uid
  }

  /** No window member is completed yet. */
  predicate Uncompleted(w: seq<User>) {
    forall i :: 0 <= i < |w| ==> !w[i].completed
  }

  /** What `get_first_user` gives: a user of the crawled network, not completed. */
  predicate FirstUserNew(src: Source, sn: string) {
    src.firstUser.socialNetwork == sn && !src.firstUser.completed
  }

  /** What holds between two steps: the window holds at most two distinct
      stored users, none of them completed; on the first run it is empty and
      the network has no users yet. */
  ghost predicate WindowInvariant(t: Tables, window: seq<User>, firstRun: bool, sn: string) {
    && |window| <= 2 && InStore(t, window) && DistinctUids(window) && Uncompleted(window)
    && (firstRun ==> window == [] && CountInNetwork(t.users, sn) == 0)
  }

  /** One resource and its edges: the users stay and the edges are appended. */
  lemma IngestAndLinkFrame(t: Tables, info: ResourceInfo, nlp: Analyzer, part: Part, active: seq<User>)
    requires 1 <= |active|
    ensures IngestAndLink(t, info, nlp, part, active).users == t.users
    ensures var r := IngestResource(t, info, nlp).1;
      IngestAndLink(t, info, nlp, part, active).resourceUsers
        == t.resourceUsers + if r.Some? then PartEdges(part, active, r.value.uid) else []
  {
    IngestResourceFrame(t, info, nlp);
  }

  /** IngestAndLink in terms of the outcome of add_resource. */
  lemma IngestAndLinkOutcome(t: Tables, info: ResourceInfo, nlp: Analyzer, part: Part, active: seq<User>,
                             t1: Tables, r: Option<Resource>)
    requires (t1, r) == IngestResource(t, info, nlp)
    requires 1 <= |active|
    ensures IngestAndLink(t, info, nlp, part, active)
      == if r.None? then t1 else t1.(resourceUsers := t1.resourceUsers + PartEdges(part, active, r.value.uid))
  {
  }

  /** Linking a resource to stored users keeps the store well formed. */
  lemma IngestAndLinkWellFormed(t: Tables, info: ResourceInfo, nlp: Analyzer, part: Part, active: seq<User>)
    requires t.WellFormed() && 1 <= |active| <= 3 && InStore(t, active)
    ensures IngestAndLink(t, info, nlp, part, active).WellFormed()
  {
    var ingested := IngestResource(t, info, nlp);
    IngestResourceWellFormed(t, info, nlp);
    if ingested.1.Some? {
      IngestResourceSpec(t, info, nlp);
      IngestResourceFrame(t, info, nlp);
      var t1 := ingested.0;
      var rid := ingested.1.value.uid;
      PartEdgesStored(t, part, active, rid);
      assert forall e :: e in PartEdges(part, active, rid) ==> e.user < |t1.users| && e.resource < |t1.resources|;
    }
  }

  /** The edges of a part go from stored window members to the resource. */
  lemma PartEdgesStored(t: Tables, part: Part, active: seq<User>, rid: nat)
    requires 1 <= |active| <= 3 && InStore(t, active)
    ensures forall e :: e in PartEdges(part, active, rid) ==> e.user < |t.users| && e.resource == rid
  {
    ProfileEdgesSpec(active, rid);
    PostEdgesSpec(active, rid);
  }

  /** The profile part keeps the store well formed. */
  lemma LinkProfileWellFormed(t: Tables, active: seq<User>, profile: Option<ResourceInfo>, nlp: Analyzer)
    requires t.WellFormed() && 1 <= |active| <= 3 && InStore(t, active)
    ensures LinkProfile(t, active, profile, nlp).WellFormed()
  {
    if profile.Some? {
      IngestAndLinkWellFormed(t, profile.value, nlp, ProfilePart, active);
    }
  }

  /** `after` is `before` with edges appended, each of distance at most 2
      and from the window member at position distance minus `offset`. */
  ghost predicate AppendsWindowEdges(before: seq<ResourceUser>, after: seq<ResourceUser>, active: seq<User>, offset: nat) {
    && |before| <= |after| && after[..|before|] == before
    && forall k :: |before| <= k < |after| ==> WindowEdge(after[k], active, offset)
  }

  ghost predicate WindowEdge(e: ResourceUser, active: seq<User>, offset: nat) {
    offset <= e.distance <= 2 && e.distance - offset < |active| && e.user == active[e.distance - offset].uid
  }

  lemma WindowEdgesAppend(before: seq<ResourceUser>, edges: seq<ResourceUser>, active: seq<User>, offset: nat)
    requires forall i :: 0 <= i < |edges| ==> WindowEdge(edges[i], active, offset)
    ensures AppendsWindowEdges(before, before + edges, active, offset)
  {
    assert (before + edges)[..|before|] == before;
    forall k | |before| <= k < |before + edges|
      ensures WindowEdge((before + edges)[k], active, offset)
    {
      assert (before + edges)[k] == edges[k - |before|];
    }
  }

  lemma WindowEdgesTrans(a: seq<ResourceUser>, b: seq<ResourceUser>, c: seq<ResourceUser>, active: seq<User>, offset: nat)
    requires AppendsWindowEdges(a, b, active, offset) && AppendsWindowEdges(b, c, active, offset)
    ensures AppendsWindowEdges(a, c, active, offset)
  {
    assert c[..|a|] == c[..|b|][..|a|];
    forall k | |a| <= k < |c|
      ensures WindowEdge(c[k], active, offset)
    {
      if k < |b| {
        assert c[k] == c[..|b|][k];
      }
    }
  }

  /** The profile part leaves the users alone and only appends edges, each
      from a window member at distance equal to its position. */
  lemma LinkProfileEdges(t: Tables, active: seq<User>, profile: Option<ResourceInfo>, nlp: Analyzer)
    requires 1 <= |active| <= 3
    ensures LinkProfile(t, active, profile, nlp).users == t.users
    ensures AppendsWindowEdges(t.resourceUsers, LinkProfile(t, active, profile, nlp).resourceUsers, active, 0)
  {
    var edges: seq<ResourceUser> := [];
    if profile.Some? {
      IngestAndLinkFrame(t, profile.value, nlp, ProfilePart, active);
      var r := IngestResource(t, profile.value, nlp).1;
      if r.Some? {
        edges := ProfileEdges(active, r.value.uid);
        ProfileEdgesSpec(active, r.value.uid);
      }
    }
    assert LinkProfile(t, active, profile, nlp).resourceUsers == t.resourceUsers + edges;
    WindowEdgesAppend(t.resourceUsers, edges, active, 0);
  }

  /** The loop over posts keeps the store well formed. */
  lemma {:induction false} LinkPostsWellFormed(t: Tables, active: seq<User>, posts: seq<ResourceInfo>, nlp: Analyzer)
    requires t.WellFormed() && 1 <= |active| <= 3 && InStore(t, active)
    ensures LinkPosts(t, active, posts, nlp).WellFormed()
  {
    if posts != [] {
      var prev := LinkPosts(t, active, posts[..|posts| - 1], nlp);
      LinkPostsWellFormed(t, active, posts[..|posts| - 1], nlp);
      LinkPostsUsers(t, active, posts[..|posts| - 1], nlp);
      IngestAndLinkWellFormed(prev, posts[|posts| - 1], nlp, PostPart, active);
    }
  }

  /** The loop over posts leaves the users alone and only appends edges, each
      at distance 1 or 2 from the window member one position before: a post
      never gets a distance-0 edge. */
  lemma {:induction false} LinkPostsEdges(t: Tables, active: seq<User>, posts: seq<ResourceInfo>, nlp: Analyzer)
    requires 1 <= |active|
    ensures AppendsWindowEdges(t.resourceUsers, LinkPosts(t, active, posts, nlp).resourceUsers, active, 1)
  {
    if posts == [] {
      WindowEdgesAppend(t.resourceUsers, [], active, 1);
      assert t.resourceUsers + [] == t.resourceUsers;
    } else {
      var prev := LinkPosts(t, active, posts[..|posts| - 1], nlp);
      LinkPostsEdges(t, active, posts[..|posts| - 1], nlp);
      IngestAndLinkFrame(prev, posts[|posts| - 1], nlp, PostPart, active);
      var r := IngestResource(prev, posts[|posts| - 1], nlp).1;
      var edges := if r.Some? then PostEdges(active, r.value.uid) else [];
      if r.Some? {
        PostEdgesSpec(active, r.value.uid);
      }
      WindowEdgesAppend(prev.resourceUsers, edges, active, 1);
      WindowEdgesTrans(t.resourceUsers, prev.resourceUsers, prev.resourceUsers + edges, active, 1);
    }
  }

  /** The followees only add users: the other tables and the stored users stay. */
  lemma {:induction false} AddFolloweesSpec(t: Tables, followees: seq<UserInfo>)
    requires t.WellFormed()
    ensures AddFollowees(t, followees).WellFormed()
    ensures AddFollowees(t, followees) == t.(users := AddFollowees(t, followees).users)
  {
    if followees != [] {
      AddFolloweesSpec(t, followees[..|followees| - 1]);
      UpsertUserSpec(AddFollowees(t, followees[..|followees| - 1]), followees[|followees| - 1]);
    }
  }

  lemma InStorePrefix(t: Tables, t': Tables, w: seq<User>)
    requires InStore(t, w)
    requires |t.users| <= |t'.users| && t'.users[..|t.users|] == t.users
    ensures InStore(t', w)
  {
    forall i | 0 <= i < |w|
      ensures w[i].uid < |t'.users| && t'.users[w[i].uid] == w[i]
    {
      assert t'.users[..|t.users|][w[i].uid] == t.users[w[i].uid];
    }
  }

  /** Profile, posts and followees keep the store well formed and the window stored. */
  lemma LinkedPreserves(t: Tables, active: seq<User>, u: User, src: Source, nlp: Analyzer)
    requires t.WellFormed() && 1 <= |active| <= 3 && InStore(t, active)
    ensures AddFollowees(LinkPosts(LinkProfile(t, active, src.profile(u), nlp), active, src.posts(u), nlp),
                         src.followees(u)).WellFormed()
    ensures InStore(AddFollowees(LinkPosts(LinkProfile(t, active, src.profile(u), nlp), active, src.posts(u), nlp),
                                 src.followees(u)), active)
  {
    var t1 := LinkProfile(t, active, src.profile(u), nlp);
    LinkProfileWellFormed(t, active, src.profile(u), nlp);
    LinkProfileUsers(t, active, src.profile(u), nlp);
    var t2 := LinkPosts(t1, active, src.posts(u), nlp);
    LinkPostsWellFormed(t1, active, src.posts(u), nlp);
    LinkPostsUsers(t1, active, src.posts(u), nlp);
    var t3 := AddFollowees(t2, src.followees(u));
    AddFolloweesSpec(t2, src.followees(u));
    AddFolloweesUsers(t2, src.followees(u));
    InStorePrefix(t2, t3, active);
  }

  /** Visiting a stored user outside the window keeps the store well formed
      and the window invariant. */
  lemma VisitPreserves(t: Tables, window: seq<User>, u: User, sn: string, src: Source, nlp: Analyzer)
    requires t.WellFormed() && |window| <= 2
    requires InStore(t, [u] + window) && DistinctUids([u] + window) && Uncompleted([u] + window)
    ensures Visit(t, window, u, src, nlp).tables.WellFormed()
    ensures WindowInvariant(Visit(t, window, u, src, nlp).tables, Visit(t, window, u, src, nlp).window, false, sn)
  {
    var active := [u] + window;
    var t3 := AddFollowees(LinkPosts(LinkProfile(t, active, src.profile(u), nlp), active, src.posts(u), nlp),
                           src.followees(u));
    LinkedPreserves(t, active, u, src, nlp);
    var a := Advance(window, u);
    AdvanceSpec(window, u);
    assert Visit(t, window, u, src, nlp).tables == Complete(t3, a.evicted);
    if a.evicted.Some? {
      CompletePreserves(t3, active);
    }
  }

  /** Completing the oldest of three distinct stored window members keeps the
      store well formed and the other two stored as they are. */
  lemma CompletePreserves(t: Tables, active: seq<User>)
    requires t.WellFormed() && |active| == 3 && InStore(t, active) && DistinctUids(active)
    ensures Complete(t, Some(active[2])).WellFormed()
    ensures InStore(Complete(t, Some(active[2])), active[..2])
  {
    var ev := active[2];
    var t4 := Complete(t, Some(ev));
    assert t4.users == t.users[ev.uid := ev.(completed := true)];
    assert active[0].uid != ev.uid && active[1].uid != ev.uid;
  }

  /** On the first run the first user is added and visited with an empty window. */
  lemma FirstRunVisit(t: Tables, window: seq<User>, sn: string, src: Source, nlp: Analyzer)
    requires t.WellFormed() && WindowInvariant(t, window, true, sn) && FirstUserNew(src, sn)
    ensures var added := UpsertUser(t.users, src.firstUser);
      && window == [] && added.0 == t.users + [added.1] && !added.1.completed
      && InStore(t.(users := added.0), [added.1] + window) && DistinctUids([added.1] + window)
      && Uncompleted([added.1] + window)
      && CrawlStep(t, window, true, sn, src, nlp) == Visit(t.(users := added.0), window, added.1, src, nlp)
  {
    UpsertUserSpec(t, src.firstUser);
  }

  /** Otherwise the selected user is stored and not in the window. */
  lemma SelectedVisit(t: Tables, window: seq<User>, sn: string, src: Source, nlp: Analyzer)
    requires t.WellFormed() && WindowInvariant(t, window, false, sn)
    requires SelectUser(t.users, sn, window).Some?
    ensures var u := t.users[SelectUser(t.users, sn, window).value];
      && InStore(t, [u] + window) && DistinctUids([u] + window) && Uncompleted([u] + window)
      && CrawlStep(t, window, false, sn, src, nlp) == Visit(t, window, u, src, nlp)
  {
    SelectUserSpec(t.users, sn, window);
    var u := t.users[SelectUser(t.users, sn, window).value];
    assert u.uid == SelectUser(t.users, sn, window).value;
    forall j | 0 < j < |[u] + window|
      ensures ([u] + window)[j].uid != u.uid && !([u] + window)[j].completed
    {
      assert window[j - 1] in window;
    }
  }

  /** A step keeps the store well formed and the window invariant. */
  lemma CrawlStepPreserves(t: Tables, window: seq<User>, firstRun: bool, sn: string, src: Source, nlp: Analyzer)
    requires t.WellFormed() && WindowInvariant(t, window, firstRun, sn)
    requires firstRun ==> FirstUserNew(src, sn)
    ensures CrawlStep(t, window, firstRun, sn, src, nlp).tables.WellFormed()
    ensures WindowInvariant(CrawlStep(t, window, firstRun, sn, src, nlp).tables,
                            CrawlStep(t, window, firstRun, sn, src, nlp).window,
                            CrawlStep(t, window, firstRun, sn, src, nlp).firstRun, sn)
  {
    if firstRun {
      var added := UpsertUser(t.users, src.firstUser);
      UpsertUserSpec(t, src.firstUser);
      FirstRunVisit(t, window, sn, src, nlp);
      VisitPreserves(t.(users := added.0), window, added.1, sn, src, nlp);
    } else {
      match SelectUser(t.users, sn, window)
      case None =>
      case Some(i) =>
        SelectedVisit(t, window, sn, src, nlp);
        VisitPreserves(t, window, t.users[i], sn, src, nlp);
    }
  }

  /** Without a user to visit nothing changes; otherwise the visited user
      heads the window and the oldest member is evicted exactly when the
      window was full. */
  lemma CrawlStepOutcome(t: Tables, window: seq<User>, firstRun: bool, sn: string, src: Source, nlp: Analyzer)
    requires WindowInvariant(t, window, firstRun, sn)
    ensures var c := CrawlStep(t, window, firstRun, sn, src, nlp);
      && (c.outcome.NoUncompletedUser? ==> c.tables == t && c.window == window && !firstRun)
      && (c.outcome.Visited? ==>
            && !c.firstRun && c.window[0] == c.outcome.user
            && (c.outcome.evicted.Some? <==> |window| == 2)
            && (c.outcome.evicted.Some? ==> c.outcome.evicted.value == window[1]))
  {
    var c := CrawlStep(t, window, firstRun, sn, src, nlp);
    if c.outcome.Visited? {
      AdvanceSpec(window, c.outcome.user);
    }
  }

  /** A step marks one user completed, the oldest window member, and only
      when the window was full; that user was stored and not completed
      before; no other stored user changes, and users are only ever added. */
  lemma CrawlStepCompletion(t: Tables, window: seq<User>, firstRun: bool, sn: string, src: Source, nlp: Analyzer)
    requires t.WellFormed() && WindowInvariant(t, window, firstRun, sn)
    ensures var c := CrawlStep(t, window, firstRun, sn, src, nlp);
      c.outcome.Visited? ==> |t.users| <= |c.tables.users|
    ensures var c := CrawlStep(t, window, firstRun, sn, src, nlp);
      c.outcome.Visited? && c.outcome.evicted.Some? ==>
        c.outcome.evicted.value.uid < |t.users| && !t.users[c.outcome.evicted.value.uid].completed
    ensures var c := CrawlStep(t, window, firstRun, sn, src, nlp);
      c.outcome.Visited? ==>
        forall i :: 0 <= i < |t.users| ==>
          c.tables.users[i] == if c.outcome.evicted.Some? && i == c.outcome.evicted.value.uid
                               then t.users[i].(completed := true) else t.users[i]
  {
    var c := CrawlStep(t, window, firstRun, sn, src, nlp);
    if c.outcome.Visited? {
      var u := c.outcome.user;
      var t0 := if firstRun then t.(users := UpsertUser(t.users, src.firstUser).0) else t;
      if firstRun {
        UpsertUserSpec(t, src.firstUser);
      }
      assert c == Visit(t0, window, u, src, nlp);
      assert |t.users| <= |t0.users| && t0.users[..|t.users|] == t.users;
      VisitUsers(t0, window, u, src, nlp);
      AdvanceSpec(window, u);
      if c.outcome.evicted.Some? {
        assert c.outcome.evicted.value == window[1];
      }
      forall i | 0 <= i < |t.users|
        ensures c.tables.users[i] == if c.outcome.evicted.Some? && i == c.outcome.evicted.value.uid
                                     then t.users[i].(completed := true) else t.users[i]
      {
        assert t0.users[i] == t0.users[..|t.users|][i];
      }
    }
  }

  /** Once completed, a user stays completed and never re-enters the window,
      so it is never selected, visited or completed again. */
  lemma CompletedStaysOut(t: Tables, window: seq<User>, firstRun: bool, sn: string,
                                             src: Source, nlp: Analyzer)
    requires t.WellFormed() && WindowInvariant(t, window, firstRun, sn)
    requires firstRun ==> FirstUserNew(src, sn)
    ensures var c := CrawlStep(t, window, firstRun, sn, src, nlp);
      forall i :: 0 <= i < |t.users| && t.users[i].completed ==>
        && i < |c.tables.users| && c.tables.users[i].completed
        && forall j :: 0 <= j < |c.window| ==> c.window[j].uid != i
  {
    CrawlStepPreserves(t, window, firstRun, sn, src, nlp);
    CrawlStepOutcome(t, window, firstRun, sn, src, nlp);
    CrawlStepCompletion(t, window, firstRun, sn, src, nlp);
  }

  /** Visiting a user keeps every stored user row, except that the evicted
      window member is marked completed. */
  lemma VisitUsers(t: Tables, window: seq<User>, u: User, src: Source, nlp: Analyzer)
    requires |window| <= 2 && InStore(t, window)
    ensures |t.users| <= |Visit(t, window, u, src, nlp).tables.users|
    ensures forall i :: 0 <= i < |t.users| ==>
      Visit(t, window, u, src, nlp).tables.users[i]
        == if Visit(t, window, u, src, nlp).outcome.evicted.Some?
              && i == Visit(t, window, u, src, nlp).outcome.evicted.value.uid
           then t.users[i].(completed := true) else t.users[i]
  {
    var active := [u] + window;
    var t3 := AddFollowees(LinkPosts(LinkProfile(t, active, src.profile(u), nlp), active, src.posts(u), nlp),
                           src.followees(u));
    CrawlUsersPrefix(t, active, u, src, nlp);
    AdvanceSpec(window, u);
    var ev := Advance(window, u).evicted;
    assert Visit(t, window, u, src, nlp).tables == Complete(t3, ev);
    assert Visit(t, window, u, src, nlp).outcome.evicted == ev;
    if ev.Some? {
      assert t.users[window[1].uid] == window[1];
    }
    forall i | 0 <= i < |t.users|
      ensures t3.users[i] == t.users[i]
    {
      assert t3.users[i] == t3.users[..|t.users|][i];
    }
  }

  /** Between the selection and the completion, users are only appended. */
  lemma CrawlUsersPrefix(t: Tables, active: seq<User>, u: User, src: Source, nlp: Analyzer)
    requires 1 <= |active|
    ensures var t3 := AddFollowees(LinkPosts(LinkProfile(t, active, src.profile(u), nlp), active, src.posts(u), nlp),
                                   src.followees(u));
      |t.users| <= |t3.users| && t3.users[..|t.users|] == t.users
  {
    var t1 := LinkProfile(t, active, src.profile(u), nlp);
    LinkProfileUsers(t, active, src.profile(u), nlp);
    var t2 := LinkPosts(t1, active, src.posts(u), nlp);
    LinkPostsUsers(t1, active, src.posts(u), nlp);
    AddFolloweesUsers(t2, src.followees(u));
  }

  lemma LinkProfileUsers(t: Tables, active: seq<User>, profile: Option<ResourceInfo>, nlp: Analyzer)
    requires 1 <= |active|
    ensures LinkProfile(t, active, profile, nlp).users == t.users
  {
    if profile.Some? {
      IngestAndLinkFrame(t, profile.value, nlp, ProfilePart, active);
    }
  }

  lemma {:induction false} LinkPostsUsers(t: Tables, active: seq<User>, posts: seq<ResourceInfo>, nlp: Analyzer)
    requires 1 <= |active|
    ensures LinkPosts(t, active, posts, nlp).users == t.users
  {
    if posts != [] {
      LinkPostsUsers(t, active, posts[..|posts| - 1], nlp);
      IngestAndLinkFrame(LinkPosts(t, active, posts[..|posts| - 1], nlp), posts[|posts| - 1], nlp, PostPart, active);
    }
  }

  /** add_user on each followee keeps every stored user row as it was. */
  lemma {:induction false} AddFolloweesUsers(t: Tables, followees: seq<UserInfo>)
    ensures |t.users| <= |AddFollowees(t, followees).users|
    ensures AddFollowees(t, followees).users[..|t.users|] == t.users
  {
    if followees != [] {
      var prev := AddFollowees(t, followees[..|followees| - 1]);
      AddFolloweesUsers(t, followees[..|followees| - 1]);
      var f := followees[|followees| - 1];
      var users := UpsertUser(prev.users, f).0;
      if FindUser(prev.users, f.socialNetwork, f.externalId).None? {
        assert users[..|prev.users|] == prev.users;
      }
      assert users[..|t.users|] == users[..|prev.users|][..|t.users|];
    }
  }

  // ---------------------------------------------------------------- the crawler

  /** A crawler for one social network over one store. */
  class Crawler {
    const socialNetwork: string
    const store: GraphStore
    /** `active_users`: the sliding window, newest first. */
    var window: seq<User>
    var firstRun: bool

    ghost predicate Valid()
      reads this, store
    {
      store.Valid() && WindowInvariant(store.Snapshot(), window, firstRun, socialNetwork)
    }

    /** The state of run() before its loop: the first run is detected from the store. */
    constructor (sn: string, s: GraphStore)
      requires s.Valid()
      ensures socialNetwork == sn && store == s
      ensures window == [] && firstRun == s.IsFirstRun(sn)
      ensures Valid()
    {
      socialNetwork := sn;
      store := s;
      window := [];
      firstRun := s.IsFirstRun(sn);
    }

    /** The three map_user_with_resource calls for a profile resource. */
    method MapProfileResource(active: seq<User>, resource: Resource)
      requires store.Valid() && 1 <= |active| <= 3 && InStore(store.Snapshot(), active)
      requires resource.uid < |store.resources|
      modifies store`resourceUsers
      ensures store.Valid()
      ensures store.resourceUsers == old(store.resourceUsers) + ProfileEdges(active, resource.uid)
    {
      store.MapUserWithResource(active[0], resource, 0);
      if |active| >= 2 {
        store.MapUserWithResource(active[1], resource, 1);
      }
      if |active| == 3 {
        store.MapUserWithResource(active[2], resource, 2);
      }
    }

    /** The two map_user_with_resource calls for a post. */
    method MapPostResource(active: seq<User>, resource: Resource)
      requires store.Valid() && 1 <= |active| <= 3 && InStore(store.Snapshot(), active)
      requires resource.uid < |store.resources|
      modifies store`resourceUsers
      ensures store.Valid()
      ensures store.resourceUsers == old(store.resourceUsers) + PostEdges(active, resource.uid)
    {
      store.MapUserWithResource(active[0], resource, 1);
      if |active| >= 2 {
        store.MapUserWithResource(active[1], resource, 2);
      }
    }

    /** The profile part of the loop body. */
    method VisitProfile(active: seq<User>, profile: Option<ResourceInfo>, nlp: Analyzer)
      requires store.Valid() && 1 <= |active| <= 3 && InStore(store.Snapshot(), active)
      modifies store
      ensures store.Valid() && store.users == old(store.users)
      ensures store.Snapshot() == LinkProfile(old(store.Snapshot()), active, profile, nlp)
    {
      ghost var t := store.Snapshot();
      if profile.Some? {
        var resource := store.AddResource(profile.value, nlp);
        ghost var t1 := store.Snapshot();
        IngestAndLinkOutcome(t, profile.value, nlp, ProfilePart, active, t1, resource);
        if resource.Some? {
          MapProfileResource(active, resource.value);
          assert store.Snapshot() == t1.(resourceUsers := t1.resourceUsers + PartEdges(ProfilePart, active, resource.value.uid));
        }
      }
    }

    /** The loop over the user's posts. */
    method VisitPosts(active: seq<User>, posts: seq<ResourceInfo>, nlp: Analyzer)
      requires store.Valid() && 1 <= |active| <= 3 && InStore(store.Snapshot(), active)
      modifies store
      ensures store.Valid() && store.users == old(store.users)
      ensures store.Snapshot() == LinkPosts(old(store.Snapshot()), active, posts, nlp)
    {
      ghost var t := store.Snapshot();
      assert posts[..0] == [];
      for i := 0 to |posts|
        invariant store.Valid() && store.users == t.users
        invariant store.Snapshot() == LinkPosts(t, active, posts[..i], nlp)
      {
        assert posts[..i + 1][..i] == posts[..i];
        VisitPost(active, posts[i], nlp);
      }
      assert posts[..|posts|] == posts;
    }

    /** One iteration of the loop over posts. */
    method VisitPost(active: seq<User>, post: ResourceInfo, nlp: Analyzer)
      requires store.Valid() && 1 <= |active| <= 3 && InStore(store.Snapshot(), active)
      modifies store
      ensures store.Valid() && store.users == old(store.users)
      ensures store.Snapshot() == IngestAndLink(old(store.Snapshot()), post, nlp, PostPart, active)
    {
      ghost var t := store.Snapshot();
      var resource := store.AddResource(post, nlp);
      ghost var t1 := store.Snapshot();
      IngestAndLinkOutcome(t, post, nlp, PostPart, active, t1, resource);
      if resource.Some? {
        MapPostResource(active, resource.value);
        assert store.Snapshot() == t1.(resourceUsers := t1.resourceUsers + PartEdges(PostPart, active, resource.value.uid));
      }
    }

    /** The loop over the user's followees. */
    method VisitFollowees(followees: seq<UserInfo>)
      requires store.Valid()
      modifies store
      ensures store.Valid()
      ensures store.Snapshot() == AddFollowees(old(store.Snapshot()), followees)
    {
      ghost var t := store.Snapshot();
      assert followees[..0] == [];
      for i := 0 to |followees|
        invariant store.Valid()
        invariant store.Snapshot() == AddFollowees(t, followees[..i])
      {
        assert followees[..i + 1][..i] == followees[..i];
        var _ := store.AddUser(followees[i]);
      }
      assert followees[..|followees|] == followees;
    }

    /** The loop body after the selection of `user`: its profile, its
        posts, its followees, then the window moves on. */
    method VisitUser(user: User, src: Source, nlp: Analyzer) returns (evicted: Option<User>)
      requires store.Valid() && |window| <= 2
      requires InStore(store.Snapshot(), [user] + window) && DistinctUids([user] + window)
      requires Uncompleted([user] + window)
      modifies this`window, store
      ensures store.Valid() && WindowInvariant(store.Snapshot(), window, false, socialNetwork)
      ensures Crawl(store.Snapshot(), window, false, Visited(user, evicted))
           == Visit(old(store.Snapshot()), old(window), user, src, nlp)
    {
      ghost var t := store.Snapshot();
      VisitPreserves(t, window, user, socialNetwork, src, nlp);
      var active := [user] + window;
      VisitProfile(active, src.profile(user), nlp);
      VisitPosts(active, src.posts(user), nlp);
      ghost var t2 := store.Snapshot();
      VisitFollowees(src.followees(user));
      AddFolloweesUsers(t2, src.followees(user));
      InStorePrefix(t2, store.Snapshot(), active);
      evicted := AdvanceWindow(user);
    }

    /** `active_users.insert(0, user)`; a full window drops its oldest user,
        who is marked completed. */
    method AdvanceWindow(user: User) returns (evicted: Option<User>)
      requires store.Valid() && |window| <= 2
      requires InStore(store.Snapshot(), [user] + window) && DistinctUids([user] + window)
      modifies this`window, store`users
      ensures store.Valid()
      ensures window == Advance(old(window), user).window && evicted == Advance(old(window), user).evicted
      ensures store.Snapshot() == Complete(old(store.Snapshot()), evicted)
    {
      var active := [user] + window;
      evicted := None;
      if |active| == 3 {
        evicted := Some(active[2]);
        store.MarkCompleted(active[2]);
        active := active[..2];
      }
      window := active;
    }

    /** One iteration of the `while True` loop of run(). */
    method Step(src: Source, nlp: Analyzer) returns (outcome: StepOutcome)
      requires Valid() && (firstRun ==> FirstUserNew(src, socialNetwork))
      modifies this, store
      ensures Valid()
      ensures Crawl(store.Snapshot(), window, firstRun, outcome)
           == CrawlStep(old(store.Snapshot()), old(window), old(firstRun), socialNetwork, src, nlp)
    {
      ghost var t := store.Snapshot();
      var user: User;
      if firstRun {
        user := store.AddUser(src.firstUser);
        firstRun := false;
        FirstRunVisit(t, window, socialNetwork, src, nlp);
      } else {
        var found := SelectUser(store.users, socialNetwork, window);
        if found.None? {
          return NoUncompletedUser;
        }
        user := store.users[found.value];
        SelectedVisit(t, window, socialNetwork, src, nlp);
      }
      var evicted := VisitUser(user, src, nlp);
      outcome := Visited(user, evicted);
    }
  }
}
