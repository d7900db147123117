/** The graph store: users, resources, the edges between them, the stem and
    entity vocabularies and the computed scores, with the get-or-create rules
    that decide when a row is inserted. A row's primary key is its position
    in its table (rows are only ever appended). */
module GraphManager {
  import opened Wrappers
  import ResourceUtil

  // ---------------------------------------------------------------- rows

  datatype User = User(uid: nat, externalId: int, username: string, url: string,
                       socialNetwork: string, completed: bool)

  /** A user object not saved yet (no primary key). */
  datatype UserInfo = UserInfo(externalId: int, username: string, url: string,
                               socialNetwork: string, completed: bool)

  datatype Resource = Resource(uid: nat, externalId: string, url: string, socialNetwork: string,
                               rawContent: string, locationName: Option<string>,
                               locationLat: Option<real>, locationLon: Option<real>)

  /** A resource object not saved yet (no primary key). */
  datatype ResourceInfo = ResourceInfo(externalId: string, url: string, socialNetwork: string,
                                       rawContent: string, locationName: Option<string>,
                                       locationLat: Option<real>, locationLon: Option<real>)

  /** Edge between a user and a resource, with the distance at which it was seen. */
  datatype ResourceUser = ResourceUser(user: nat, resource: nat, distance: int)
  datatype ResourceStem = ResourceStem(stem: nat, resource: nat)
  datatype ResourceEntity = ResourceEntity(entity: nat, resource: nat, rho: real)
  datatype UserScore = UserScore(owner: nat, score: real)
  datatype ResourceScore = ResourceScore(resource: nat, score: real)

  /** One annotation of the entity extractor: a title and its relevance rho. */
  datatype EntityMention = EntityMention(name: string, rho: real)

  /** The text services add_resource calls that are not part of this model:
      link expansion (extract_content_from_url) and entity extraction
      (extract_entities); the rest of the text analysis is ResourceUtil's. */
  datatype Analyzer = Analyzer(
    toolkit: ResourceUtil.Toolkit,
    expandLinks: string -> string,
    extractEntities: string -> seq<EntityMention>)

  predicate NoDuplicates(xs: seq<string>) {
    forall i, j :: 0 <= i < j < |xs| ==> xs[i] != xs[j]
  }

  /** The content of every table at one moment. */
  datatype Tables = Tables(
    users: seq<User>,
    resources: seq<Resource>,
    resourceUsers: seq<ResourceUser>,
    stems: seq<string>,
    entities: seq<string>,
    resourceStems: seq<ResourceStem>,
    resourceEntities: seq<ResourceEntity>,
    userScores: seq<UserScore>,
    resourceScores: seq<ResourceScore>)
  {
    /** Keys are positions, identities are unique, vocabularies hold each
        string once and every foreign key names an existing row. */
    ghost predicate WellFormed() {
      KeysArePositions() && UniqueIdentities() && NoDuplicates(stems) && NoDuplicates(entities)
      && EdgesValid() && StemLinksValid() && EntityLinksValid() && ScoresValid()
    }

    ghost predicate KeysArePositions() {
      && (forall i :: 0 <= i < |users| ==> users[i].uid == i)
      && (forall i :: 0 <= i < |resources| ==> resources[i].uid == i)
    }

    ghost predicate UniqueIdentities() {
      && (forall i, j :: 0 <= i < j < |users| ==>
            users[i].socialNetwork != users[j].socialNetwork || users[i].externalId != users[j].externalId)
      && (forall i, j :: 0 <= i < j < |resources| ==>
            resources[i].socialNetwork != resources[j].socialNetwork
            || resources[i].externalId != resources[j].externalId)
    }

    ghost predicate EdgesValid() {
      forall e :: e in resourceUsers ==> e.user < |users| && e.resource < |resources|
    }

    ghost predicate StemLinksValid() {
      forall l :: l in resourceStems ==> l.stem < |stems| && l.resource < |resources|
    }

    ghost predicate EntityLinksValid() {
      forall l :: l in resourceEntities ==> l.entity < |entities| && l.resource < |resources|
    }

    ghost predicate ScoresValid() {
      && (forall s :: s in userScores ==> s.owner < |users|)
      && (forall s :: s in resourceScores ==> s.resource < |resources|)
    }
  }

  // ---------------------------------------------------------------- is_first_run

  /** `User.select().where(social_network == sn).count()` */
  function CountInNetwork(users: seq<User>, sn: string): (n: nat)
    ensures n <= |users|
    ensures n == 0 <==> forall i :: 0 <= i < |users| ==> users[i].socialNetwork != sn
    decreases |users|
  {
    if users == [] then 0
    else CountInNetwork(users[1..], sn) + if users[0].socialNetwork == sn then 1 else 0
  }

  // ---------------------------------------------------------------- add_user

  function FindUser(users: seq<User>, sn: string, externalId: int): Option<nat> {
    FirstIndex(users, (u: User) => u.socialNetwork == sn && u.externalId == externalId)
  }

  function UserRow(info: UserInfo, uid: nat): User {
    User(uid, info.externalId, info.username, info.url, info.socialNetwork, info.completed)
  }

  /** add_user: the stored row with the same identity, or a new row. */
  function UpsertUser(users: seq<User>, info: UserInfo): (seq<User>, User) {
    match FindUser(users, info.socialNetwork, info.externalId)
    case Some(i) => (users, users[i])
    case None => (users + [UserRow(info, |users|)], UserRow(info, |users|))
  }

  /** add_user inserts nothing when the identity is known and exactly one row
      otherwise; afterwards exactly one row carries that identity. */
  lemma UpsertUserSpec(t: Tables, info: UserInfo)
    requires t.WellFormed()
    ensures var (users, row) := UpsertUser(t.users, info);
      && t.(users := users).WellFormed()
      && row.uid < |users| && users[row.uid] == row
      && row.socialNetwork == info.socialNetwork && row.externalId == info.externalId
      && (FindUser(t.users, info.socialNetwork, info.externalId).Some? ==> users == t.users)
      && (FindUser(t.users, info.socialNetwork, info.externalId).None? ==>
            users == t.users + [UserRow(info, |t.users|)])
      && (forall i :: (0 <= i < |users| && users[i].socialNetwork == info.socialNetwork
            && users[i].externalId == info.externalId) ==> i == row.uid)
  {
    var (users, row) := UpsertUser(t.users, info);
    match FindUser(t.users, info.socialNetwork, info.externalId)
    case Some(i) =>
      assert t.users[i].uid == i;
      forall j | 0 <= j < |users| && users[j].socialNetwork == info.socialNetwork
        && users[j].externalId == info.externalId
        ensures j == row.uid
      {
        if j < i { } else if j > i { }
      }
    case None =>
  }

  /** A second add_user with the same identity changes nothing and returns the same row. */
  lemma UpsertUserIdempotent(users: seq<User>, info: UserInfo)
    ensures var (once, row) := UpsertUser(users, info);
      UpsertUser(once, info) == (once, row)
  {
    var (once, row) := UpsertUser(users, info);
    match FindUser(users, info.socialNetwork, info.externalId)
    case Some(i) =>
    case None =>
      var again := FindUser(once, info.socialNetwork, info.externalId);
      assert once[|users|] == row;
      assert again == Some(|users|);
  }

  // ---------------------------------------------------------------- vocabularies

  /** `Stem.select().where(stem == w)` / `Entity.select().where(entity == w)` */
  function IndexOf(vocab: seq<string>, w: string): Option<nat> {
    FirstIndex(vocab, (v: string) => v == w)
  }

  /** Get-or-create of one vocabulary row: the new vocabulary and the row's key. */
  function Intern(vocab: seq<string>, w: string): (r: (seq<string>, nat))
    ensures r.1 < |r.0| && r.0[r.1] == w
    ensures w in vocab ==> r.0 == vocab && forall j :: 0 <= j < r.1 ==> vocab[j] != w
    ensures w !in vocab ==> r.0 == vocab + [w] && r.1 == |vocab|
  {
    match IndexOf(vocab, w)
    case Some(i) => (vocab, i)
    case None => (vocab + [w], |vocab|)
  }

  datatype Interned = Interned(vocab: seq<string>, ids: seq<nat>)

  /** Get-or-create of each word in turn; the rows already there stay in place. */
  function InternAll(vocab: seq<string>, words: seq<string>): (r: Interned)
    ensures |r.ids| == |words|
    ensures |vocab| <= |r.vocab| && r.vocab[..|vocab|] == vocab
    decreases |words|
  {
    if words == [] then Interned(vocab, [])
    else
      var prev := InternAll(vocab, words[..|words| - 1]);
      var (v, id) := Intern(prev.vocab, words[|words| - 1]);
      assert v[..|vocab|] == prev.vocab[..|vocab|] by {
        assert v[..|prev.vocab|] == prev.vocab;
      }
      Interned(v, prev.ids + [id])
  }

  /** One more word: the last get-or-create runs on the vocabulary the others left. */
  lemma InternAllSnoc(vocab: seq<string>, words: seq<string>, w: string)
    ensures InternAll(vocab, words + [w])
      == Interned(Intern(InternAll(vocab, words).vocab, w).0,
                  InternAll(vocab, words).ids + [Intern(InternAll(vocab, words).vocab, w).1])
  {
    assert (words + [w])[..|words|] == words;
  }

  /** Every word gets the key of a vocabulary row holding it. */
  lemma {:induction false} InternAllRows(vocab: seq<string>, words: seq<string>)
    ensures forall i :: 0 <= i < |words| ==>
      InternAll(vocab, words).ids[i] < |InternAll(vocab, words).vocab|
      && InternAll(vocab, words).vocab[InternAll(vocab, words).ids[i]] == words[i]
  {
    if words != [] {
      var init := words[..|words| - 1];
      var w := words[|words| - 1];
      assert words == init + [w];
      InternAllRows(vocab, init);
      InternAllSnoc(vocab, init, w);
      var prev := InternAll(vocab, init);
      var v := Intern(prev.vocab, w).0;
      assert v[..|prev.vocab|] == prev.vocab;
      forall i | 0 <= i < |init|
        ensures prev.ids[i] < |v| && v[prev.ids[i]] == words[i]
      {
        assert v[prev.ids[i]] == v[..|prev.vocab|][prev.ids[i]];
      }
    }
  }

  /** A word already in the vocabulary gets its existing row, never a new one. */
  lemma {:induction false} InternAllReuses(vocab: seq<string>, words: seq<string>)
    ensures forall i :: 0 <= i < |words| && words[i] in vocab ==> InternAll(vocab, words).ids[i] < |vocab|
  {
    if words != [] {
      var init := words[..|words| - 1];
      var w := words[|words| - 1];
      assert words == init + [w];
      InternAllReuses(vocab, init);
      InternAllSnoc(vocab, init, w);
      var prev := InternAll(vocab, init);
      if w in vocab {
        InternReuses(vocab, prev.vocab, w);
      }
    }
  }

  /** A word of the original vocabulary keeps its row however many rows were added. */
  lemma InternReuses(vocab: seq<string>, grown: seq<string>, w: string)
    requires |vocab| <= |grown| && grown[..|vocab|] == vocab
    requires w in vocab
    ensures Intern(grown, w).1 < |vocab|
  {
    var k :| 0 <= k < |vocab| && vocab[k] == w;
    assert grown[k] == grown[..|vocab|][k];
  }

  /** The rows added hold words of the input. */
  lemma {:induction false} InternAllNew(vocab: seq<string>, words: seq<string>)
    ensures forall j :: |vocab| <= j < |InternAll(vocab, words).vocab| ==> InternAll(vocab, words).vocab[j] in words
  {
    if words != [] {
      var init := words[..|words| - 1];
      var w := words[|words| - 1];
      assert words == init + [w];
      var prev := InternAll(vocab, init);
      InternAllNew(vocab, init);
      InternAllSnoc(vocab, init, w);
      var v := Intern(prev.vocab, w).0;
      assert v[..|prev.vocab|] == prev.vocab;
      forall j | |vocab| <= j < |v|
        ensures v[j] in words
      {
        if j < |prev.vocab| {
          assert v[j] == v[..|prev.vocab|][j];
          assert prev.vocab[j] in init;
        }
      }
    }
  }

  /** Get-or-create never stores a string twice. */
  lemma {:induction false} InternAllDistinct(vocab: seq<string>, words: seq<string>)
    requires NoDuplicates(vocab)
    ensures NoDuplicates(InternAll(vocab, words).vocab)
  {
    if words != [] {
      var init := words[..|words| - 1];
      var w := words[|words| - 1];
      assert words == init + [w];
      InternAllDistinct(vocab, init);
      InternAllSnoc(vocab, init, w);
      InternDistinct(InternAll(vocab, init).vocab, w);
    }
  }

  lemma InternDistinct(vocab: seq<string>, w: string)
    requires NoDuplicates(vocab)
    ensures NoDuplicates(Intern(vocab, w).0)
  {
    if w !in vocab {
      var v := vocab + [w];
      forall i, j | 0 <= i < j < |v|
        ensures v[i] != v[j]
      {
        if j == |vocab| {
          assert v[i] == vocab[i];
        }
      }
    }
  }

  // ---------------------------------------------------------------- add_resource

  /** SANITIZE_UNICODE: the characters the store's text columns accept. */
  predicate StorableChar(c: char) {
    c <= '\U{D7FF}' || ('\U{E000}' <= c && c <= '\U{FFFF}')
  }

  /** `re.sub(SANITIZE_UNICODE, u'◽', s)` */
  function SanitizeUnicode(s: string): (r: string)
    ensures |r| == |s|
    ensures forall i :: 0 <= i < |s| && StorableChar(s[i]) ==> r[i] == s[i]
    ensures forall i :: 0 <= i < |s| && !StorableChar(s[i]) ==> r[i] == '\U{25FD}'
  {
    seq(|s|, i requires 0 <= i < |s| => if StorableChar(s[i]) then s[i] else '\U{25FD}')
  }

  /** After sanitisation every character is storable, and sanitising again changes nothing. */
  lemma SanitizeUnicodeSpec(s: string)
    ensures forall c :: c in SanitizeUnicode(s) ==> StorableChar(c)
    ensures SanitizeUnicode(SanitizeUnicode(s)) == SanitizeUnicode(s)
  {
  }

  /** The rows `Resource.get(social_network == sn, external_id == externalId)` selects. */
  function HasResourceKey(sn: string, externalId: string): Resource -> bool {
    (r: Resource) => r.socialNetwork == sn && r.externalId == externalId
  }

  function FindResource(resources: seq<Resource>, sn: string, externalId: string): Option<nat> {
    FirstIndex(resources, HasResourceKey(sn, externalId))
  }

  function Names(ms: seq<EntityMention>): (r: seq<string>)
    ensures |r| == |ms|
  {
    seq(|ms|, i requires 0 <= i < |ms| => ms[i].name)
  }

  /** The ResourceEntity rows of one resource: one per mention, with its rho. */
  function EntityLinks(ids: seq<nat>, rid: nat, ms: seq<EntityMention>): (r: seq<ResourceEntity>)
    requires |ids| == |ms|
    ensures |r| == |ids|
  {
    seq(|ids|, i requires 0 <= i < |ids| => ResourceEntity(ids[i], rid, ms[i].rho))
  }

  lemma EntityLinksSnoc(ids: seq<nat>, rid: nat, ms: seq<EntityMention>, id: nat, m: EntityMention)
    requires |ids| == |ms|
    ensures EntityLinks(ids + [id], rid, ms + [m]) == EntityLinks(ids, rid, ms) + [ResourceEntity(id, rid, m.rho)]
  {
  }

  /** The ResourceStem rows of one resource: one per stem, repeats included. */
  function StemLinks(ids: seq<nat>, rid: nat): (r: seq<ResourceStem>)
    ensures |r| == |ids|
  {
    seq(|ids|, i requires 0 <= i < |ids| => ResourceStem(ids[i], rid))
  }

  /** The text add_resource classifies and analyses: the sanitised raw
      content with its first link expanded. */
  function AnalysedContent(info: ResourceInfo, nlp: Analyzer): string {
    nlp.expandLinks(SanitizeUnicode(info.rawContent))
  }

  /** The row add_resource saves for a new English resource. */
  function ResourceRow(info: ResourceInfo, rid: nat): Resource {
    Resource(rid, info.externalId, info.url, info.socialNetwork, SanitizeUnicode(info.rawContent),
             if info.locationName.Some? then Some(SanitizeUnicode(info.locationName.value)) else None,
             info.locationLat, info.locationLon)
  }

  /** The entity rows of resource `rid`: get-or-create of each name, one link per mention. */
  function WithEntityLinks(t: Tables, rid: nat, mentions: seq<EntityMention>): Tables {
    var ents := InternAll(t.entities, Names(mentions));
    t.(entities := ents.vocab, resourceEntities := t.resourceEntities + EntityLinks(ents.ids, rid, mentions))
  }

  /** The stem rows of resource `rid`: get-or-create of each stem, one link per stem. */
  function WithStemLinks(t: Tables, rid: nat, words: seq<string>): Tables {
    var sts := InternAll(t.stems, words);
    t.(stems := sts.vocab, resourceStems := t.resourceStems + StemLinks(sts.ids, rid))
  }

  /** add_resource: the tables afterwards and the value returned. */
  function IngestResource(t: Tables, info: ResourceInfo, nlp: Analyzer): (Tables, Option<Resource>) {
    match FindResource(t.resources, info.socialNetwork, info.externalId)
    case Some(i) => (t, Some(t.resources[i]))
    case None =>
      var content := AnalysedContent(info, nlp);
      if !ResourceUtil.IsEnglish(nlp.toolkit, content) then (t, None)
      else
        var rid := |t.resources|;
        var saved := t.(resources := t.resources + [ResourceRow(info, rid)]);
        var linked := WithEntityLinks(saved, rid, nlp.extractEntities(content));
        (WithStemLinks(linked, rid, ResourceUtil.ExtractStems(nlp.toolkit, content)), Some(ResourceRow(info, rid)))
  }

  /** One get-or-create of an entity and its ResourceEntity row. */
  function AddEntityLink(t: Tables, rid: nat, m: EntityMention): Tables {
    t.(entities := Intern(t.entities, m.name).0,
       resourceEntities := t.resourceEntities + [ResourceEntity(Intern(t.entities, m.name).1, rid, m.rho)])
  }

  /** One get-or-create of a stem and its ResourceStem row. */
  function AddStemLink(t: Tables, rid: nat, w: string): Tables {
    t.(stems := Intern(t.stems, w).0,
       resourceStems := t.resourceStems + [ResourceStem(Intern(t.stems, w).1, rid)])
  }

  lemma NamesSnoc(ms: seq<EntityMention>, m: EntityMention)
    ensures Names(ms + [m]) == Names(ms) + [m.name]
  {
  }

  lemma StemLinksSnoc(ids: seq<nat>, rid: nat, id: nat)
    ensures StemLinks(ids + [id], rid) == StemLinks(ids, rid) + [ResourceStem(id, rid)]
  {
  }

  /** Linking one more mention is one more get-or-create and one more row. */
  lemma WithEntityLinksSnoc(t: Tables, rid: nat, ms: seq<EntityMention>, m: EntityMention)
    ensures WithEntityLinks(t, rid, ms + [m]) == AddEntityLink(WithEntityLinks(t, rid, ms), rid, m)
  {
    NamesSnoc(ms, m);
    InternAllSnoc(t.entities, Names(ms), m.name);
    var prev := InternAll(t.entities, Names(ms));
    EntityLinksSnoc(prev.ids, rid, ms, Intern(prev.vocab, m.name).1, m);
  }

  /** Linking one more stem is one more get-or-create and one more row. */
  lemma WithStemLinksSnoc(t: Tables, rid: nat, words: seq<string>, w: string)
    ensures WithStemLinks(t, rid, words + [w]) == AddStemLink(WithStemLinks(t, rid, words), rid, w)
  {
    InternAllSnoc(t.stems, words, w);
    var prev := InternAll(t.stems, words);
    StemLinksSnoc(prev.ids, rid, Intern(prev.vocab, w).1);
  }

  /** The loop form of WithEntityLinksSnoc: mention `i` after the first `i`. */
  lemma WithEntityLinksStep(t: Tables, rid: nat, ms: seq<EntityMention>, i: nat)
    requires i < |ms|
    ensures WithEntityLinks(t, rid, ms[..i + 1]) == AddEntityLink(WithEntityLinks(t, rid, ms[..i]), rid, ms[i])
  {
    assert ms[..i + 1] == ms[..i] + [ms[i]];
    WithEntityLinksSnoc(t, rid, ms[..i], ms[i]);
  }

  /** The loop form of WithStemLinksSnoc: stem `i` after the first `i`. */
  lemma WithStemLinksStep(t: Tables, rid: nat, words: seq<string>, i: nat)
    requires i < |words|
    ensures WithStemLinks(t, rid, words[..i + 1]) == AddStemLink(WithStemLinks(t, rid, words[..i]), rid, words[i])
  {
    assert words[..i + 1] == words[..i] + [words[i]];
    WithStemLinksSnoc(t, rid, words[..i], words[i]);
  }

  lemma SaveResourceWellFormed(t: Tables, info: ResourceInfo)
    requires t.WellFormed()
    requires FindResource(t.resources, info.socialNetwork, info.externalId).None?
    ensures t.(resources := t.resources + [ResourceRow(info, |t.resources|)]).WellFormed()
  {
  }

  lemma WithEntityLinksWellFormed(t: Tables, rid: nat, mentions: seq<EntityMention>)
    requires t.WellFormed() && rid < |t.resources|
    ensures WithEntityLinks(t, rid, mentions).WellFormed()
  {
    var ents := InternAll(t.entities, Names(mentions));
    var links := EntityLinks(ents.ids, rid, mentions);
    InternAllRows(t.entities, Names(mentions));
    InternAllNew(t.entities, Names(mentions));
    InternAllDistinct(t.entities, Names(mentions));
    forall l | l in t.resourceEntities + links
      ensures l.entity < |ents.vocab| && l.resource < |t.resources|
    {
      if l !in t.resourceEntities {
        var k :| 0 <= k < |links| && links[k] == l;
      }
    }
  }

  lemma WithStemLinksWellFormed(t: Tables, rid: nat, words: seq<string>)
    requires t.WellFormed() && rid < |t.resources|
    ensures WithStemLinks(t, rid, words).WellFormed()
  {
    var sts := InternAll(t.stems, words);
    var links := StemLinks(sts.ids, rid);
    InternAllRows(t.stems, words);
    InternAllNew(t.stems, words);
    InternAllDistinct(t.stems, words);
    forall l | l in t.resourceStems + links
      ensures l.stem < |sts.vocab| && l.resource < |t.resources|
    {
      if l !in t.resourceStems {
        var k :| 0 <= k < |links| && links[k] == l;
      }
    }
  }

  /** add_resource keeps the store well formed. */
  lemma IngestResourceWellFormed(t: Tables, info: ResourceInfo, nlp: Analyzer)
    requires t.WellFormed()
    ensures IngestResource(t, info, nlp).0.WellFormed()
  {
    if FindResource(t.resources, info.socialNetwork, info.externalId).None? {
      var content := AnalysedContent(info, nlp);
      if ResourceUtil.IsEnglish(nlp.toolkit, content) {
        var rid := |t.resources|;
        var saved := t.(resources := t.resources + [ResourceRow(info, rid)]);
        SaveResourceWellFormed(t, info);
        WithEntityLinksWellFormed(saved, rid, nlp.extractEntities(content));
        WithStemLinksWellFormed(WithEntityLinks(saved, rid, nlp.extractEntities(content)), rid,
          ResourceUtil.ExtractStems(nlp.toolkit, content));
      }
    }
  }

  /** add_resource touches only the resource and vocabulary tables, and only
      appends resources. */
  lemma IngestResourceFrame(t: Tables, info: ResourceInfo, nlp: Analyzer)
    ensures IngestResource(t, info, nlp).0.users == t.users
    ensures IngestResource(t, info, nlp).0.resourceUsers == t.resourceUsers
    ensures IngestResource(t, info, nlp).0.userScores == t.userScores
    ensures IngestResource(t, info, nlp).0.resourceScores == t.resourceScores
    ensures |t.resources| <= |IngestResource(t, info, nlp).0.resources|
    ensures IngestResource(t, info, nlp).0.resources[..|t.resources|] == t.resources
  {
  }

  /** add_resource returns a stored row with the requested identity: the
      existing one, none for a new non-English text (the store then
      unchanged), or a new last row. */
  lemma IngestResourceSpec(t: Tables, info: ResourceInfo, nlp: Analyzer)
    requires t.WellFormed()
    ensures IngestResource(t, info, nlp).1.Some? ==>
      && IngestResource(t, info, nlp).1.value.uid < |IngestResource(t, info, nlp).0.resources|
      && IngestResource(t, info, nlp).0.resources[IngestResource(t, info, nlp).1.value.uid]
         == IngestResource(t, info, nlp).1.value
      && IngestResource(t, info, nlp).1.value.socialNetwork == info.socialNetwork
      && IngestResource(t, info, nlp).1.value.externalId == info.externalId
    ensures FindResource(t.resources, info.socialNetwork, info.externalId).Some? ==>
      IngestResource(t, info, nlp) == (t, IngestResource(t, info, nlp).1) && IngestResource(t, info, nlp).1.Some?
    ensures IngestResource(t, info, nlp).1.None? <==>
      (FindResource(t.resources, info.socialNetwork, info.externalId).None?
       && !ResourceUtil.IsEnglish(nlp.toolkit, AnalysedContent(info, nlp)))
    ensures IngestResource(t, info, nlp).1.None? ==> IngestResource(t, info, nlp).0 == t
  {
    match FindResource(t.resources, info.socialNetwork, info.externalId)
    case Some(i) =>
      assert t.resources[i].uid == i;
    case None =>
      if ResourceUtil.IsEnglish(nlp.toolkit, AnalysedContent(info, nlp)) {
        IngestResourceNew(t, info, nlp);
      }
  }

  /** `rows` extends `before` with one row per mention of resource `rid`,
      carrying its rho and pointing at the row of `vocab` with its name. */
  ghost predicate EntityRowsFor(before: seq<ResourceEntity>, rows: seq<ResourceEntity>, vocab: seq<string>,
                                rid: nat, mentions: seq<EntityMention>) {
    && |rows| == |before| + |mentions|
    && forall i :: 0 <= i < |mentions| ==>
         var l := rows[|before| + i];
         l.resource == rid && l.rho == mentions[i].rho && l.entity < |vocab| && vocab[l.entity] == mentions[i].name
  }

  /** `rows` extends `before` with one row per word (repeats included) of
      resource `rid`, pointing at the row of `vocab` with the word. */
  ghost predicate StemRowsFor(before: seq<ResourceStem>, rows: seq<ResourceStem>, vocab: seq<string>,
                              rid: nat, words: seq<string>) {
    && |rows| == |before| + |words|
    && forall i :: 0 <= i < |words| ==>
         var l := rows[|before| + i];
         l.resource == rid && l.stem < |vocab| && vocab[l.stem] == words[i]
  }

  /** add_resource on a new English text, spelled out. */
  lemma IngestResourceNew(t: Tables, info: ResourceInfo, nlp: Analyzer)
    requires FindResource(t.resources, info.socialNetwork, info.externalId).None?
    requires ResourceUtil.IsEnglish(nlp.toolkit, AnalysedContent(info, nlp))
    ensures IngestResource(t, info, nlp).0
      == WithStemLinks(WithEntityLinks(t.(resources := t.resources + [ResourceRow(info, |t.resources|)]),
                                       |t.resources|, nlp.extractEntities(AnalysedContent(info, nlp))),
                       |t.resources|, ResourceUtil.ExtractStems(nlp.toolkit, AnalysedContent(info, nlp)))
  {
  }

  /** A new English resource gets one ResourceEntity row per extracted entity,
      carrying its rho and pointing at the vocabulary row with its name, and
      one ResourceStem row per extracted stem, repeats included. */
  lemma IngestedLinks(t: Tables, info: ResourceInfo, nlp: Analyzer)
    requires FindResource(t.resources, info.socialNetwork, info.externalId).None?
    requires ResourceUtil.IsEnglish(nlp.toolkit, AnalysedContent(info, nlp))
    ensures EntityRowsFor(t.resourceEntities, IngestResource(t, info, nlp).0.resourceEntities,
                          IngestResource(t, info, nlp).0.entities, |t.resources|,
                          nlp.extractEntities(AnalysedContent(info, nlp)))
    ensures StemRowsFor(t.resourceStems, IngestResource(t, info, nlp).0.resourceStems,
                        IngestResource(t, info, nlp).0.stems, |t.resources|,
                        ResourceUtil.ExtractStems(nlp.toolkit, AnalysedContent(info, nlp)))
  {
    var content := AnalysedContent(info, nlp);
    var rid := |t.resources|;
    var saved := t.(resources := t.resources + [ResourceRow(info, rid)]);
    var linked := WithEntityLinks(saved, rid, nlp.extractEntities(content));
    IngestResourceNew(t, info, nlp);
    EntityLinkRows(saved, rid, nlp.extractEntities(content));
    StemLinkRows(linked, rid, ResourceUtil.ExtractStems(nlp.toolkit, content));
  }

  lemma EntityLinkRows(t: Tables, rid: nat, mentions: seq<EntityMention>)
    ensures EntityRowsFor(t.resourceEntities, WithEntityLinks(t, rid, mentions).resourceEntities,
                          WithEntityLinks(t, rid, mentions).entities, rid, mentions)
  {
    InternAllRows(t.entities, Names(mentions));
  }

  lemma StemLinkRows(t: Tables, rid: nat, words: seq<string>)
    ensures StemRowsFor(t.resourceStems, WithStemLinks(t, rid, words).resourceStems,
                        WithStemLinks(t, rid, words).stems, rid, words)
  {
    InternAllRows(t.stems, words);
  }

  /** A resource appended with an identity absent so far is the first row with it. */
  lemma FindAppendedResource(rs: seq<Resource>, row: Resource)
    requires FindResource(rs, row.socialNetwork, row.externalId).None?
    ensures FindResource(rs + [row], row.socialNetwork, row.externalId) == Some(|rs|)
  {
    var key := HasResourceKey(row.socialNetwork, row.externalId);
    var found := FindResource(rs + [row], row.socialNetwork, row.externalId);
    assert key((rs + [row])[|rs|]);
  }

  /** Adding the same resource twice stores it at most once. */
  lemma IngestResourceIdempotent(t: Tables, info: ResourceInfo, nlp: Analyzer)
    ensures var (once, r) := IngestResource(t, info, nlp);
      IngestResource(once, info, nlp) == (once, r)
  {
    var (once, r) := IngestResource(t, info, nlp);
    if FindResource(t.resources, info.socialNetwork, info.externalId).None?
      && ResourceUtil.IsEnglish(nlp.toolkit, AnalysedContent(info, nlp))
    {
      var row := ResourceRow(info, |t.resources|);
      FindAppendedResource(t.resources, row);
      assert once.resources == t.resources + [row];
    }
  }

  // ---------------------------------------------------------------- the store

  /** The database, one sequence per table. */
  class GraphStore {
    var users: seq<User>
    var resources: seq<Resource>
    var resourceUsers: seq<ResourceUser>
    var stems: seq<string>
    var entities: seq<string>
    var resourceStems: seq<ResourceStem>
    var resourceEntities: seq<ResourceEntity>
    var userScores: seq<UserScore>
    var resourceScores: seq<ResourceScore>

    function Snapshot(): Tables
      reads this
    {
      Tables(users, resources, resourceUsers, stems, entities, resourceStems, resourceEntities,
             userScores, resourceScores)
    }

    ghost predicate Valid()
      reads this
    {
      Snapshot().WellFormed()
    }

    /** init_graph on an empty database. */
    constructor ()
      ensures Valid()
      ensures Snapshot() == Tables([], [], [], [], [], [], [], [], [])
    {
      users, resources, resourceUsers := [], [], [];
      stems, entities, resourceStems, resourceEntities := [], [], [], [];
      userScores, resourceScores := [], [];
    }

    /** is_first_run: the network has no user yet. */
    function IsFirstRun(sn: string): (r: bool)
      reads this
      ensures r <==> forall i :: 0 <= i < |users| ==> users[i].socialNetwork != sn
    {
      CountInNetwork(users, sn) == 0
    }

    /** add_user */
    method AddUser(info: UserInfo) returns (r: User)
      requires Valid()
      modifies this`users
      ensures Valid()
      ensures (users, r) == UpsertUser(old(users), info)
      ensures |old(users)| <= |users| && users[..|old(users)|] == old(users)
      ensures r.uid < |users| && users[r.uid] == r
      ensures r.socialNetwork == info.socialNetwork && r.externalId == info.externalId
    {
      UpsertUserSpec(Snapshot(), info);
      var found := FindUser(users, info.socialNetwork, info.externalId);
      if found.None? {
        r := UserRow(info, |users|);
        users := users + [r];
      } else {
        r := users[found.value];
      }
    }

    /** Get-or-create of an Entity row. */
    method GetOrCreateEntity(name: string) returns (id: nat)
      modifies this`entities
      ensures (entities, id) == Intern(old(entities), name)
    {
      var found := IndexOf(entities, name);
      if found.None? {
        id := |entities|;
        entities := entities + [name];
      } else {
        id := found.value;
      }
    }

    /** Get-or-create of a Stem row. */
    method GetOrCreateStem(stem: string) returns (id: nat)
      modifies this`stems
      ensures (stems, id) == Intern(old(stems), stem)
    {
      var found := IndexOf(stems, stem);
      if found.None? {
        id := |stems|;
        stems := stems + [stem];
      } else {
        id := found.value;
      }
    }

    /** The entity part of add_resource: get-or-create of each extracted
        entity and a ResourceEntity row for each. */
    method LinkEntities(rid: nat, mentions: seq<EntityMention>)
      modifies this`entities, this`resourceEntities
      ensures Snapshot() == WithEntityLinks(old(Snapshot()), rid, mentions)
    {
      ghost var t := Snapshot();
      assert mentions[..0] == [];
      for i := 0 to |mentions|
        invariant Snapshot() == WithEntityLinks(t, rid, mentions[..i])
      {
        LinkEntity(rid, mentions[i]);
        WithEntityLinksStep(t, rid, mentions, i);
      }
      assert mentions[..|mentions|] == mentions;
    }

    /** One mention: get-or-create its entity and save a ResourceEntity row. */
    method LinkEntity(rid: nat, m: EntityMention)
      modifies this`entities, this`resourceEntities
      ensures Snapshot() == AddEntityLink(old(Snapshot()), rid, m)
    {
      var id := GetOrCreateEntity(m.name);
      resourceEntities := resourceEntities + [ResourceEntity(id, rid, m.rho)];
    }

    /** One stem: get-or-create it and save a ResourceStem row. */
    method LinkStem(rid: nat, w: string)
      modifies this`stems, this`resourceStems
      ensures Snapshot() == AddStemLink(old(Snapshot()), rid, w)
    {
      var id := GetOrCreateStem(w);
      resourceStems := resourceStems + [ResourceStem(id, rid)];
    }

    /** The stem part of add_resource: get-or-create of each stem and a
        ResourceStem row for each. */
    method LinkStems(rid: nat, words: seq<string>)
      modifies this`stems, this`resourceStems
      ensures Snapshot() == WithStemLinks(old(Snapshot()), rid, words)
    {
      ghost var t := Snapshot();
      assert words[..0] == [];
      for i := 0 to |words|
        invariant Snapshot() == WithStemLinks(t, rid, words[..i])
      {
        LinkStem(rid, words[i]);
        WithStemLinksStep(t, rid, words, i);
      }
      assert words[..|words|] == words;
    }

    /** add_resource */
    method AddResource(info: ResourceInfo, nlp: Analyzer) returns (r: Option<Resource>)
      requires Valid()
      modifies this`resources, this`entities, this`resourceEntities, this`stems, this`resourceStems
      ensures Valid()
      ensures (Snapshot(), r) == IngestResource(old(Snapshot()), info, nlp)
      ensures |old(resources)| <= |resources| && resources[..|old(resources)|] == old(resources)
      ensures r.Some? ==> r.value.uid < |resources| && resources[r.value.uid] == r.value
      ensures r.Some? ==> r.value.socialNetwork == info.socialNetwork && r.value.externalId == info.externalId
    {
      ghost var t := Snapshot();
      IngestResourceFrame(t, info, nlp);
      IngestResourceSpec(t, info, nlp);
      IngestResourceWellFormed(t, info, nlp);
      var found := FindResource(resources, info.socialNetwork, info.externalId);
      if found.Some? {
        return Some(resources[found.value]);
      }
      var content := nlp.expandLinks(SanitizeUnicode(info.rawContent));
      if !ResourceUtil.IsEnglish(nlp.toolkit, content) {
        return None;
      }
      IngestResourceNew(t, info, nlp);
      var row := ResourceRow(info, |resources|);
      SaveAndLink(row, nlp.extractEntities(content), ResourceUtil.ExtractStems(nlp.toolkit, content));
      r := Some(row);
    }

    /** The new-resource part of add_resource: save the row, then link its
        entities and its stems. */
    method SaveAndLink(row: Resource, mentions: seq<EntityMention>, words: seq<string>)
      modifies this`resources, this`entities, this`resourceEntities, this`stems, this`resourceStems
      ensures Snapshot() == WithStemLinks(WithEntityLinks(old(Snapshot()).(resources := old(resources) + [row]),
                                                          row.uid, mentions), row.uid, words)
    {
      resources := resources + [row];
      LinkEntities(row.uid, mentions);
      LinkStems(row.uid, words);
    }

    /** map_user_with_resource: always a new edge row, even for a pair already linked. */
    method MapUserWithResource(user: User, resource: Resource, distance: int)
      requires Valid()
      requires user.uid < |users| && resource.uid < |resources|
      modifies this`resourceUsers
      ensures Valid()
      ensures resourceUsers == old(resourceUsers) + [ResourceUser(user.uid, resource.uid, distance)]
    {
      resourceUsers := resourceUsers + [ResourceUser(user.uid, resource.uid, distance)];
    }

    /** `user.completed = True; user.save()` on a user read from the store. */
    method MarkCompleted(user: User)
      requires Valid()
      requires user.uid < |users|
      requires users[user.uid].socialNetwork == user.socialNetwork
      requires users[user.uid].externalId == user.externalId
      modifies this`users
      ensures Valid()
      ensures users == old(users)[user.uid := user.(completed := true)]
    {
      users := users[user.uid := user.(completed := true)];
    }

    /** `ResourceScore(resource=..., score=...).save()`: a new score row. */
    method SaveResourceScore(rid: nat, score: real)
      requires Valid() && rid < |resources|
      modifies this`resourceScores
      ensures Valid()
      ensures resourceScores == old(resourceScores) + [ResourceScore(rid, score)]
    {
      resourceScores := resourceScores + [ResourceScore(rid, score)];
    }

    /** `UserScore(owner=..., score=...).save()`: a new score row. */
    method SaveUserScore(uid: nat, score: real)
      requires Valid() && uid < |users|
      modifies this`userScores
      ensures Valid()
      ensures userScores == old(userScores) + [UserScore(uid, score)]
    {
      userScores := userScores + [UserScore(uid, score)];
    }
  }
}
