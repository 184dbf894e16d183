/** Media assets and their objects at the video provider. Each operation is one step: the provider's
    answers are parameters, and nothing else runs between an operation's reads and its last write. */
module Media {
  import opened Wrappers

  type AssetId = nat
  type EpisodeId = nat
  type ProviderId = nat

  datatype State = PendingUpload | Uploaded | Processing | Ready | Failed | Blocked | Removed

  predicate InFlight(s: State) {
    s.PendingUpload? || s.Uploaded? || s.Processing? || s.Ready?
  }

  predicate Allowed(from: State, to: State) {
    match from
    case PendingUpload => to in {PendingUpload, Uploaded, Failed, Blocked, Removed}
    case Uploaded => to in {Uploaded, Processing, Failed, Blocked, Removed}
    case Processing => to in {Processing, Ready, Failed, Blocked, Removed}
    case Ready => to in {Ready, Blocked, Removed}
    case Failed => to in {Failed, Processing, Blocked, Removed}
    case Blocked => to in {Blocked, Removed}
    case Removed => to in {Removed}
  }

  /** The table of transitions: a row may stay as it is, be removed, and until then be blocked; it moves on
      by one stage; it may fail until it is ready, and is then processed again. */
  lemma AllowedIs(from: State, to: State)
    ensures Allowed(from, to) <==>
      || from == to || to.Removed? || (to.Blocked? && !from.Removed?)
      || (to.Failed? && (from.PendingUpload? || from.Uploaded? || from.Processing?))
      || (from.PendingUpload? && to.Uploaded?) || (from.Uploaded? && to.Processing?)
      || (from.Processing? && to.Ready?) || (from.Failed? && to.Processing?)
  {
  }

  /** What a row's state may be after any number of transitions. */
  predicate Reaches(from: State, to: State) {
    match from
    case PendingUpload => true
    case Uploaded => !to.PendingUpload?
    case Processing => !to.PendingUpload? && !to.Uploaded?
    case Ready => to.Ready? || to.Blocked? || to.Removed?
    case Failed => !to.PendingUpload? && !to.Uploaded?
    case Blocked => to.Blocked? || to.Removed?
    case Removed => to.Removed?
  }

  ghost predicate Chain(states: seq<State>) {
    forall i :: 0 <= i < |states| - 1 ==> Allowed(states[i], states[i + 1])
  }

  /** The table of later states is exactly the closure of the table of transitions. */
  lemma ReachesIsClosure(from: State, to: State)
    ensures Reaches(from, to) <==>
        exists states :: |states| > 0 && Chain(states) && states[0] == from && states[|states| - 1] == to
  {
    if Reaches(from, to) {
      var way := if Allowed(from, to) then [from, to]
                 else if from.PendingUpload?
                 then if to.Processing? then [from, Uploaded, to] else [from, Uploaded, Processing, to]
                 else [from, Processing, to];
      assert Chain(way) && way[0] == from && way[|way| - 1] == to;
    }
    forall states: seq<State> | |states| > 0 && Chain(states) ensures Reaches(states[0], states[|states| - 1]) {
      ChainReaches(states);
    }
  }

  lemma {:induction false} ChainReaches(states: seq<State>)
    requires |states| > 0 && Chain(states)
    ensures Reaches(states[0], states[|states| - 1])
  {
    if |states| > 1 {
      ChainReaches(states[..|states| - 1]);
      assert Allowed(states[|states| - 2], states[|states| - 1]);
    }
  }

  // Rows and provider objects

  datatype Asset = Asset(
    episode: EpisodeId, checksum: string, provider: Option<ProviderId>, state: State,
    captions: bool, thumbnails: nat, renditions: nat, diagnostic: string)

  datatype Encoding = Encoding | Encoded | EncodingFailed

  /** What the provider reports about one object. */
  datatype Metadata = Metadata(status: Encoding, captions: bool, thumbnails: nat, renditions: nat)

  predicate Playable(m: Metadata) {
    m.status.Encoded? && m.thumbnails >= 1 && m.renditions >= 1 && m.captions
  }

  type Rows = map<AssetId, Asset>

  predicate RowOk(a: Asset) {
    && (a.state.Ready? ==> a.provider.Some? && a.captions && a.thumbnails >= 1 && a.renditions >= 1)
    && (a.state.Processing? ==> a.provider.Some?)
    && (a.state.PendingUpload? || a.state.Uploaded? ==> a.provider.None?)
  }

  predicate Active(rows: Rows, id: AssetId, episode: EpisodeId) {
    id in rows && rows[id].episode == episode && InFlight(rows[id].state)
  }

  ghost predicate OneActive(rows: Rows) {
    forall i, j, episode :: Active(rows, i, episode) && Active(rows, j, episode) ==> i == j
  }

  /** The row refers to the provider object. */
  predicate RefersTo(rows: Rows, id: AssetId, p: ProviderId) {
    id in rows && rows[id].provider == Some(p)
  }

  predicate Keeps(rows: Rows, id: AssetId, p: ProviderId) {
    RefersTo(rows, id, p) && !rows[id].state.Removed?
  }

  /** The rows, the provider's live objects, and the identifiers each side has handed out. `orphans` are
      objects that a failed submission left at the provider: no row ever names them. */
  datatype Library = Library(
    rows: Rows, live: map<ProviderId, Metadata>, issued: set<ProviderId>, orphans: set<ProviderId>, next: AssetId)

  /** Every live object is kept by a row that is not removed, or is an orphan; no two rows share an object. */
  ghost predicate ObjectsOk(m: Library) {
    && (forall i, j, p :: RefersTo(m.rows, i, p) && RefersTo(m.rows, j, p) ==> i == j)
    && (forall i, p :: RefersTo(m.rows, i, p) ==> p in m.issued && p !in m.orphans)
    && (forall p :: p in m.live ==> p in m.orphans || exists i :: Keeps(m.rows, i, p))
    && m.orphans <= m.issued && m.live.Keys <= m.issued
  }

  ghost predicate Sound(m: Library) {
    && (forall id :: id in m.rows ==> id < m.next && RowOk(m.rows[id]))
    && OneActive(m.rows)
    && ObjectsOk(m)
  }

  /** The provider holds nothing that no row keeps. */
  ghost predicate AllKept(m: Library) {
    forall p :: p in m.live ==> exists i :: Keeps(m.rows, i, p)
  }

  /** Every live object is kept by exactly one row exactly while no failed submission's leftover is live. */
  lemma AllKeptIff(m: Library)
    requires Sound(m)
    ensures AllKept(m) <==> m.live.Keys !! m.orphans
    ensures forall i, j, p :: Keeps(m.rows, i, p) && Keeps(m.rows, j, p) ==> i == j
  {
    forall i, p | Keeps(m.rows, i, p) ensures p !in m.orphans {
      assert RefersTo(m.rows, i, p);
    }
    forall i, j, p | Keeps(m.rows, i, p) && Keeps(m.rows, j, p) ensures i == j {
      assert RefersTo(m.rows, i, p) && RefersTo(m.rows, j, p);
    }
    if AllKept(m) {
      forall p | p in m.live ensures p !in m.orphans {
        var i :| Keeps(m.rows, i, p);
      }
    }
  }

  /** The object of a removed row is gone. */
  lemma RemovedObjectIsGone(m: Library, id: AssetId, p: ProviderId)
    requires ObjectsOk(m) && RefersTo(m.rows, id, p) && m.rows[id].state.Removed?
    ensures p !in m.live
  {
    assert forall i :: RefersTo(m.rows, i, p) ==> i == id;
  }

  /** What any operations keep: rows only move along the transitions, removed rows keep naming their
      object, no object that is gone comes back, and identifiers are never used again. */
  ghost predicate Evolved(before: Library, after: Library) {
    && (forall id :: id in before.rows && id in after.rows ==>
          && Reaches(before.rows[id].state, after.rows[id].state)
          && after.rows[id].episode == before.rows[id].episode && after.rows[id].checksum == before.rows[id].checksum
          && (before.rows[id].state.Removed? ==> after.rows[id].provider == before.rows[id].provider))
    && (forall id :: id in after.rows && id !in before.rows ==> id >= before.next)
    && (forall p :: p in after.live && p !in before.live ==> p !in before.issued)
    && (forall p :: p in after.orphans && p !in before.orphans ==> p !in before.issued)
    && before.issued <= after.issued && before.orphans <= after.orphans && before.next <= after.next
  }

  lemma EvolvedIsTransitive(a: Library, b: Library, c: Library)
    requires (forall id :: id in a.rows ==> id < a.next) && Evolved(a, b) && Evolved(b, c)
    ensures Evolved(a, c)
  {
    forall id | id in a.rows && id in c.rows
      ensures id in b.rows && Reaches(a.rows[id].state, c.rows[id].state)
      ensures a.rows[id].state.Removed? ==> b.rows[id].state.Removed?
    {
      assert Reaches(a.rows[id].state, b.rows[id].state) && Reaches(b.rows[id].state, c.rows[id].state);
    }
  }

  /** Over any operations the object of a removed row stays gone and the row stays removed. */
  lemma RemovedStaysGone(before: Library, after: Library, id: AssetId, p: ProviderId)
    requires Sound(before) && Evolved(before, after) && RefersTo(before.rows, id, p) && before.rows[id].state.Removed?
    ensures p !in after.live
    ensures id in after.rows ==> after.rows[id].state.Removed? && after.rows[id].provider == Some(p)
  {
    RemovedObjectIsGone(before, id, p);
  }

  // Row changes

  /** A row may be saved: no other row of its episode is in flight or ready if it is. */
  predicate Free(rows: Rows, id: AssetId, a: Asset) {
    InFlight(a.state) ==>
      forall other :: other in rows && other != id && rows[other].episode == a.episode ==> !InFlight(rows[other].state)
  }

  /** Saving a row that keeps its object, or gives up one that is gone, keeps everything sound. */
  lemma SavedIsSound(m: Library, id: AssetId, a: Asset)
    requires Sound(m) && id in m.rows && RowOk(a) && Free(m.rows, id, a) && a.episode == m.rows[id].episode
    requires a.provider == m.rows[id].provider || a.provider.None?
    requires m.rows[id].provider.Some? && (a.provider.None? || a.state.Removed?) ==>
        m.rows[id].provider.value !in m.live
    ensures Sound(m.(rows := m.rows[id := a]))
  {
    var rows := m.rows[id := a];
    forall i, p ensures RefersTo(rows, i, p) ==> RefersTo(m.rows, i, p) {
    }
    forall p | p in m.live && p !in m.orphans ensures exists i :: Keeps(rows, i, p) {
      var i :| Keeps(m.rows, i, p);
      assert Keeps(rows, i, p);
    }
    forall i, episode
      ensures Active(rows, i, episode) <==>
        if i == id then a.episode == episode && InFlight(a.state) else Active(m.rows, i, episode)
    {
    }
  }

  /** Any change of one row's state along the transitions, while objects may disappear. */
  lemma RowChanged(before: Library, after: Library, id: AssetId)
    requires Sound(before) && id in before.rows && id in after.rows
    requires after == Library(before.rows[id := after.rows[id]], after.live, before.issued, before.orphans, before.next)
    requires after.live.Keys <= before.live.Keys
    requires var a, b := before.rows[id], after.rows[id];
             && RowOk(b) && Free(before.rows, id, b) && Reaches(a.state, b.state)
             && b.episode == a.episode && b.checksum == a.checksum && b.provider == a.provider
             && (b.state.Removed? && b.provider.Some? ==> b.provider.value !in after.live)
    ensures Sound(after) && Evolved(before, after)
  {
    var between := before.(live := after.live);
    FewerObjectsIsSound(before, after.live);
    SavedIsSound(between, id, after.rows[id]);
  }

  /** A new object recorded in the row it was made for. */
  lemma SubmittedIsSound(m: Library, id: AssetId, a: Asset, p: ProviderId, metadata: Metadata)
    requires Sound(m) && id in m.rows && RowOk(a) && Free(m.rows, id, a) && a.episode == m.rows[id].episode
    requires p !in m.issued && m.rows[id].provider.None? && a.provider == Some(p) && !a.state.Removed?
    ensures Sound(Library(m.rows[id := a], m.live[p := metadata], m.issued + {p}, m.orphans, m.next))
  {
    var rows := m.rows[id := a];
    forall i, q ensures RefersTo(rows, i, q) <==> RefersTo(m.rows, i, q) || (i == id && q == p) {
    }
    assert Keeps(rows, id, p);
    forall q | q in m.live && q !in m.orphans ensures exists i :: Keeps(rows, i, q) {
      var i :| Keeps(m.rows, i, q);
      assert Keeps(rows, i, q);
    }
    forall i, episode
      ensures Active(rows, i, episode) <==>
        if i == id then a.episode == episode && InFlight(a.state) else Active(m.rows, i, episode)
    {
    }
  }

  /** What a failed submission left at the provider. */
  function WithLeftover(m: Library, left: Option<(ProviderId, Metadata)>): Library {
    if left.None? then m
    else
      var (p, metadata) := left.value;
      m.(live := m.live[p := metadata], issued := m.issued + {p}, orphans := m.orphans + {p})
  }

  lemma LeftoverIsSound(m: Library, left: Option<(ProviderId, Metadata)>)
    requires Sound(m) && (left.Some? ==> left.value.0 !in m.issued)
    ensures Sound(WithLeftover(m, left)) && Evolved(m, WithLeftover(m, left))
    ensures AllKept(WithLeftover(m, left)) <==> AllKept(m) && left.None?
  {
    if left.Some? {
      var after := WithLeftover(m, left);
      assert Sound(after);
      AllKeptIff(after);
      assert left.value.0 in after.live;
    }
  }

  lemma CreatedIsSound(m: Library, a: Asset)
    requires Sound(m) && RowOk(a) && Free(m.rows, m.next, a) && a.provider.None?
    ensures Sound(m.(rows := m.rows[m.next := a], next := m.next + 1))
  {
    var rows := m.rows[m.next := a];
    forall i, p ensures RefersTo(rows, i, p) <==> RefersTo(m.rows, i, p) {
    }
    forall p | p in m.live && p !in m.orphans ensures exists i :: Keeps(rows, i, p) {
      var i :| Keeps(m.rows, i, p);
      assert Keeps(rows, i, p);
    }
    forall i, episode
      ensures Active(rows, i, episode) <==>
        if i == m.next then a.episode == episode && InFlight(a.state) else Active(m.rows, i, episode)
    {
    }
  }

  /** The provider loses or changes objects it has. */
  lemma FewerObjectsIsSound(m: Library, live: map<ProviderId, Metadata>)
    requires Sound(m) && live.Keys <= m.live.Keys
    ensures Sound(m.(live := live))
  {
  }

  lemma DeletedIsSound(m: Library, id: AssetId)
    requires Sound(m) && id in m.rows && (m.rows[id].provider.Some? ==> m.rows[id].provider.value !in m.live)
    ensures Sound(m.(rows := m.rows - {id}))
  {
    var rows := m.rows - {id};
    forall i, p ensures RefersTo(rows, i, p) <==> RefersTo(m.rows, i, p) && i != id {
    }
    forall p | p in m.live && p !in m.orphans ensures exists i :: Keeps(rows, i, p) {
      var i :| Keeps(m.rows, i, p);
      assert Keeps(rows, i, p);
    }
    forall i, episode ensures Active(rows, i, episode) <==> Active(m.rows, i, episode) && i != id {
    }
  }

  // Operations

  datatype Outcome = Accepted(id: AssetId) | AdmissionDenied | InvalidUpload | ActiveExists | NotCompletable
                   | ProviderFailed | ProviderRaised | NotMinted(id: AssetId) | IllegalTransition

  /** A deletion at the provider: a failed one may have removed the object or not. */
  datatype Expiry = NoProvider | ExpiryFails(removed: bool) | ExpiryWorks

  /** A submission creates the object, uploads the master and then the captions; when a later call fails
      the object may be left. An error of the expected kind fails the row; another one escapes. */
  datatype Submission = NoneConfigured
                      | SubmitFails(left: Option<(ProviderId, Metadata)>)
                      | SubmitEscapes(left: Option<(ProviderId, Metadata)>)
                      | Submitted(id: ProviderId, metadata: Metadata)

  function Leftover(admitted: bool, s: Submission): Option<(ProviderId, Metadata)> {
    if admitted && (s.SubmitFails? || s.SubmitEscapes?) then s.left else None
  }

  function LeftIds(admitted: bool, s: Submission): set<ProviderId> {
    if Leftover(admitted, s).Some? then {Leftover(admitted, s).value.0} else {}
  }

  /** The provider hands out identifiers it never handed out before. */
  predicate NewAtProvider(s: Submission, issued: set<ProviderId>) {
    && (s.Submitted? ==> s.id !in issued)
    && (Leftover(true, s).Some? ==> Leftover(true, s).value.0 !in issued)
  }

  /** The state of a row without an object after a submission. */
  function StateAfter(admitted: bool, s: Submission, from: State): State {
    if !admitted || s.SubmitEscapes? then from else if s.Submitted? then Processing else Failed
  }

  function ObjectAfter(admitted: bool, s: Submission): Option<ProviderId> {
    if admitted && s.Submitted? then Some(s.id) else None
  }

  function Answer(admitted: bool, s: Submission, id: AssetId): Outcome {
    if !admitted then AdmissionDenied else if s.SubmitEscapes? then ProviderRaised else Accepted(id)
  }

  datatype Poll = NoneToPoll | PollFails | PollAnswers

  /** The provider answers about the row's object. */
  predicate Answered(a: Asset, poll: Poll, live: map<ProviderId, Metadata>) {
    a.provider.Some? && poll.PollAnswers? && a.provider.value in live
  }

  predicate FailedCopy(rows: Rows, id: AssetId, episode: EpisodeId, checksum: string) {
    id in rows && rows[id].episode == episode && rows[id].checksum == checksum && rows[id].state.Failed?
  }

  /** No row of the episode answers for the master or can be reused for it. */
  ghost predicate NewMaster(rows: Rows, episode: EpisodeId, checksum: string) {
    forall id :: !Active(rows, id, episode) && !FailedCopy(rows, id, episode, checksum)
  }

  /** With nothing of its episode in flight, the newest failed row of the master. */
  ghost predicate Newest(rows: Rows, id: AssetId, episode: EpisodeId, checksum: string) {
    && FailedCopy(rows, id, episode, checksum)
    && (forall other :: !Active(rows, other, episode))
    && (forall other: nat :: FailedCopy(rows, other, episode, checksum) ==> other <= id)
  }

  class MediaLibrary {
    var rows: Rows
    var live: map<ProviderId, Metadata>
    ghost var issued: set<ProviderId>
    ghost var orphans: set<ProviderId>
    var next: AssetId

    ghost function View(): Library
      reads this
    {
      Library(rows, live, issued, orphans, next)
    }

    ghost predicate Valid()
      reads this
    {
      Sound(View())
    }

    constructor ()
      ensures Valid() && View() == Library(map[], map[], {}, {}, 0)
    {
      rows, live, issued, orphans, next := map[], map[], {}, {}, 0;
    }

    // Parts of operations

    /** Saves a row unless a unique index forbids it. */
    method Save(id: AssetId, a: Asset) returns (saved: bool)
      requires id in rows
      modifies this`rows
      ensures saved <==> Free(old(rows), id, a)
      ensures rows == if saved then old(rows)[id := a] else old(rows)
    {
      saved := Free(rows, id, a);
      if saved {
        rows := rows[id := a];
      }
    }

    /** Marks a row failed. The flag says the transition was legal. */
    method MarkFailed(id: AssetId, a: Asset, diagnostic: string) returns (legal: bool)
      requires id in rows
      modifies this`rows
      ensures legal <==> a.state.Failed? || Allowed(a.state, Failed)
      ensures rows == if legal then old(rows)[id := a.(state := Failed, diagnostic := diagnostic)] else old(rows)
    {
      if !a.state.Failed? && !Allowed(a.state, Failed) {
        return false;
      }
      legal := Save(id, a.(state := Failed, diagnostic := diagnostic));
    }

    method ExpireProviderAsset(a: Asset, expiry: Expiry) returns (expired: bool)
      modifies this`live
      ensures expired <==> a.provider.None? || expiry.ExpiryWorks?
      ensures live == if a.provider.Some? && (expiry.ExpiryWorks? || (expiry.ExpiryFails? && expiry.removed))
                      then old(live) - {a.provider.value} else old(live)
    {
      if a.provider.None? {
        return true;
      }
      match expiry
      case NoProvider => return false;
      case ExpiryFails(removed) =>
        if removed {
          live := live - {a.provider.value};
        }
        return false;
      case ExpiryWorks =>
        live := live - {a.provider.value};
        return true;
    }

    /** Hands a master to the provider for a row without an object. A failed submission fails the row, and
        what it created is named by no row. */
    method SubmitToProvider(id: AssetId, admitted: bool, captions: bool, submission: Submission)
      returns (outcome: Outcome)
      requires Valid() && id in rows && rows[id].provider.None? && (rows[id].state.Uploaded? || rows[id].state.Failed?)
      requires Free(rows, id, rows[id].(state := Processing)) && NewAtProvider(submission, issued)
      modifies this`rows, this`live, this`issued, this`orphans
      ensures Valid() && Evolved(old(View()), View())
      ensures outcome == Answer(admitted, submission, id)
      ensures id in rows && rows == old(rows)[id := rows[id]]
      ensures rows[id].state == StateAfter(admitted, submission, old(rows[id]).state)
      ensures rows[id].provider == ObjectAfter(admitted, submission)
      ensures orphans == old(orphans) + LeftIds(admitted, submission) && LeftIds(admitted, submission) <= live.Keys
      ensures !admitted || submission.SubmitEscapes? ==> rows == old(rows)
      ensures admitted && submission.Submitted? ==>
        && rows[id].captions == captions && rows[id].diagnostic == ""
        && live == old(live)[submission.id := submission.metadata] && orphans == old(orphans)
      ensures !(admitted && submission.Submitted?) ==>
        View().(rows := old(rows)) == WithLeftover(old(View()), Leftover(admitted, submission))
    {
      if !admitted {
        return AdmissionDenied;
      }
      ghost var before := View();
      if submission.Submitted? {
        Record(id, captions, submission);
        return Accepted(id);
      }
      Leave(submission);
      if submission.SubmitEscapes? {
        return ProviderRaised;
      }
      ghost var between := View();
      var diagnostic :=
        if submission.NoneConfigured? then "Video provider is unset or disabled." else "Provider submit failed.";
      var legal := MarkFailed(id, rows[id], diagnostic);
      RowChanged(between, View(), id);
      EvolvedIsTransitive(before, between, View());
      return if legal then Accepted(id) else IllegalTransition;
    }

    /** The provider keeps what a failed submission created. */
    method Leave(submission: Submission)
      requires Valid() && NewAtProvider(submission, issued)
      modifies this`live, this`issued, this`orphans
      ensures Valid() && View() == WithLeftover(old(View()), Leftover(true, submission))
      ensures Evolved(old(View()), View())
    {
      var left := Leftover(true, submission);
      LeftoverIsSound(View(), left);
      if left.Some? {
        live := live[left.value.0 := left.value.1];
        issued, orphans := issued + {left.value.0}, orphans + {left.value.0};
      }
    }

    /** Records a new object in its row. */
    method Record(id: AssetId, captions: bool, submission: Submission)
      requires Valid() && id in rows && rows[id].provider.None? && (rows[id].state.Uploaded? || rows[id].state.Failed?)
      requires Free(rows, id, rows[id].(state := Processing)) && submission.Submitted? && submission.id !in issued
      modifies this`rows, this`live, this`issued
      ensures Valid() && Evolved(old(View()), View())
      ensures rows == old(rows)[id := old(rows[id]).(
                provider := Some(submission.id), captions := captions, state := Processing, diagnostic := "")]
      ensures live == old(live)[submission.id := submission.metadata]
    {
      ghost var before := View();
      var a := rows[id].(provider := Some(submission.id), captions := captions, state := Processing, diagnostic := "");
      live, issued := live[submission.id := submission.metadata], issued + {submission.id};
      var saved := Save(id, a);
      SubmittedIsSound(before, id, a, submission.id, submission.metadata);
    }

    /** Applies what the provider says about a processing row. */
    method PollAndApply(id: AssetId, a: Asset, poll: Poll) returns (outcome: Outcome)
      requires id in rows && a.state.Processing? && a.episode == rows[id].episode && Free(rows, id, a)
      modifies this`rows
      ensures outcome == Accepted(id)
      ensures id in rows && rows == old(rows)[id := rows[id]] && rows[id].episode == a.episode
      ensures rows[id].checksum == a.checksum
      ensures rows[id].provider == a.provider
      ensures rows[id].state.Ready? <==> Answered(a, poll, live) && Playable(live[a.provider.value])
      ensures rows[id].state.Ready? <==>
        && a.provider.Some? && poll.PollAnswers? && a.provider.value in live
        && var m := live[a.provider.value];
        m.status.Encoded? && m.captions && m.thumbnails >= 1 && m.renditions >= 1
      ensures rows[id].state.Processing? <==> Answered(a, poll, live) && live[a.provider.value].status.Encoding?
      ensures rows[id].state.Ready? || rows[id].state.Processing? || rows[id].state.Failed?
      ensures Answered(a, poll, live) ==>
        var m := live[a.provider.value];
        rows[id].captions == m.captions && rows[id].thumbnails == m.thumbnails && rows[id].renditions == m.renditions
      ensures rows[id].state.Failed? <==> rows[id].diagnostic != ""
    {
      var legal;
      if a.provider.None? {
        legal := MarkFailed(id, a, "Provider asset id is missing.");
        return if legal then Accepted(id) else IllegalTransition;
      }
      if poll.NoneToPoll? {
        legal := MarkFailed(id, a, "Video provider is unset or disabled.");
        return if legal then Accepted(id) else IllegalTransition;
      }
      if poll.PollFails? {
        legal := MarkFailed(id, a, "Provider status check failed.");
        return if legal then Accepted(id) else IllegalTransition;
      }
      if a.provider.value !in live {
        legal := MarkFailed(id, a, "Provider asset was not found.");
        return if legal then Accepted(id) else IllegalTransition;
      }
      var m := live[a.provider.value];
      var b := a.(captions := m.captions, thumbnails := m.thumbnails, renditions := m.renditions);
      if m.status.EncodingFailed? {
        legal := MarkFailed(id, b, "Provider encoding failed.");
        return if legal then Accepted(id) else IllegalTransition;
      }
      if m.status.Encoded? && !Playable(m) {
        legal := MarkFailed(id, b, "Captions or thumbnail missing.");
        return if legal then Accepted(id) else IllegalTransition;
      }
      if m.status.Encoded? && !Allowed(b.state, Ready) {
        return IllegalTransition;
      }
      var saved := Save(id, b.(state := if m.status.Encoded? then Ready else b.state, diagnostic := ""));
      // No other row of the episode is in flight, so no unique index is ever violated here.
      assert saved;
      return Accepted(id);
    }

    // The operations

    /** A status pull. It never attempts an illegal transition: a row becomes ready exactly when the
        provider reports it encoded with captions, a thumbnail and a rendition. */
    method Reconcile(id: AssetId, admitted: bool, poll: Poll) returns (outcome: Outcome)
      requires Valid() && id in rows
      modifies this`rows
      ensures Valid() && Evolved(old(View()), View())
      ensures id in rows && rows == old(rows)[id := rows[id]]
      ensures var settled := old(rows[id]).state.Ready? || old(rows[id]).state.Removed? || old(rows[id]).state.Blocked?;
              && outcome == (if settled || admitted then Accepted(id) else AdmissionDenied)
              && (settled || !admitted ==> rows == old(rows))
              && (!settled && admitted ==>
                    var a := old(rows[id]);
                    var polled :=
                      a.state.Processing? || (a.state.Failed? && Free(old(rows), id, a.(state := Processing)));
                    && (rows[id].state.Ready? <==>
                        polled && Answered(a, poll, live) && Playable(live[a.provider.value]))
                    && (rows[id].state.Processing? <==>
                        polled && Answered(a, poll, live) && live[a.provider.value].status.Encoding?)
                    && (!rows[id].state.Ready? && !rows[id].state.Processing? ==> rows[id].state.Failed?))
    {
      var a := rows[id];
      ghost var before := View();
      if a.state.Ready? || a.state.Removed? || a.state.Blocked? {
        return Accepted(id);
      }
      if !admitted {
        return AdmissionDenied;
      }
      if a.state.PendingUpload? || a.state.Uploaded? {
        if a.provider.Some? {
          // No row without a finished upload names an object, so this poll never happens.
          assert false;
        }
        var legal := MarkFailed(id, a, "Upload is incomplete. Re-upload the master.");
        RowChanged(before, View(), id);
        return if legal then Accepted(id) else IllegalTransition;
      }
      if a.state.Failed? && !Free(rows, id, a.(state := Processing)) {
        var legal := MarkFailed(id, a, ACTIVE_EXISTS);
        RowChanged(before, View(), id);
        return if legal then Accepted(id) else IllegalTransition;
      }
      OnlyActive(before, id);
      outcome := Repoll(id, poll);
    }

    /** Asks the provider about a processing row, or about a failed one that is processing again. */
    method Repoll(id: AssetId, poll: Poll) returns (outcome: Outcome)
      requires Valid() && id in rows && (rows[id].state.Processing? || rows[id].state.Failed?)
      requires Free(rows, id, rows[id].(state := Processing))
      modifies this`rows
      ensures Valid() && Evolved(old(View()), View())
      ensures id in rows && rows == old(rows)[id := rows[id]] && outcome == Accepted(id)
      ensures var a := old(rows[id]);
              && (rows[id].state.Ready? <==> Answered(a, poll, live) && Playable(live[a.provider.value]))
              && (rows[id].state.Processing? <==> Answered(a, poll, live) && live[a.provider.value].status.Encoding?)
              && (!rows[id].state.Ready? && !rows[id].state.Processing? ==> rows[id].state.Failed?)
    {
      ghost var before := View();
      var a := rows[id];
      if a.state.Failed? {
        a := a.(state := Processing, diagnostic := "");
        var saved := Save(id, a);
      }
      outcome := PollAndApply(id, a, poll);
      assert rows == before.rows[id := rows[id]];
      RowChanged(before, View(), id);
    }

    // Uploads

    method FindActive(episode: EpisodeId) returns (found: Option<AssetId>)
      ensures found.Some? ==> Active(rows, found.value, episode)
      ensures found.None? ==> forall id :: !Active(rows, id, episode)
    {
      var left := rows.Keys;
      while left != {}
        invariant left <= rows.Keys
        invariant forall id :: id in rows && id !in left ==> !Active(rows, id, episode)
        decreases left
      {
        var id :| id in left;
        if Active(rows, id, episode) {
          return Some(id);
        }
        left := left - {id};
      }
      return None;
    }

    /** The newest failed row of the same master. */
    method FindFailed(episode: EpisodeId, checksum: string) returns (found: Option<AssetId>)
      ensures found.Some? ==> FailedCopy(rows, found.value, episode, checksum)
      ensures forall id: nat :: FailedCopy(rows, id, episode, checksum) ==> found.Some? && id <= found.value
    {
      found := None;
      var left := rows.Keys;
      while left != {}
        invariant left <= rows.Keys
        invariant found.Some? ==> FailedCopy(rows, found.value, episode, checksum)
        invariant forall id: nat :: id !in left && FailedCopy(rows, id, episode, checksum) ==>
            found.Some? && id <= found.value
        decreases left
      {
        var id :| id in left;
        if FailedCopy(rows, id, episode, checksum) && (found.None? || found.value < id) {
          found := Some(id);
        }
        left := left - {id};
      }
    }

    /** A new pending row; another row in flight would violate a unique index. */
    method CreatePending(episode: EpisodeId, checksum: string, captions: bool) returns (id: AssetId)
      requires Valid() && forall other :: !Active(rows, other, episode)
      modifies this`rows, this`next
      ensures Valid() && Evolved(old(View()), View())
      ensures id == old(next) && id !in old(rows)
      ensures rows == old(rows)[id := Asset(episode, checksum, None, PendingUpload, captions, 0, 0, "")]
    {
      id := next;
      var a := Asset(episode, checksum, None, PendingUpload, captions, 0, 0, "");
      assert Free(rows, id, a) by {
        forall other | other in rows && other != id && rows[other].episode == episode
          ensures !InFlight(rows[other].state)
        {
          assert !Active(rows, other, episode);
        }
      }
      CreatedIsSound(View(), a);
      rows, next := rows[id := a], next + 1;
    }

    /** Marks a pending row uploaded. The flag says the transition was legal. */
    method Claim(id: AssetId, captions: bool) returns (legal: bool)
      requires Valid() && id in rows && rows[id].state.PendingUpload?
      modifies this`rows
      ensures Valid() && Evolved(old(View()), View()) && legal
      ensures rows == old(rows)[id := old(rows[id]).(state := Uploaded, captions := captions)]
      ensures Free(rows, id, rows[id].(state := Processing))
    {
      ghost var before := View();
      var a := rows[id];
      OnlyActive(before, id);
      if !Allowed(a.state, Uploaded) {
        return false;
      }
      var saved := Save(id, a.(state := Uploaded, captions := captions));
      RowChanged(before, View(), id);
      OnlyActive(View(), id);
      return true;
    }

    /** Moves a pending row without an object to the provider. */
    method ClaimAndSubmit(id: AssetId, captions: bool, admitted: bool, submission: Submission)
      returns (outcome: Outcome)
      requires Valid() && id in rows && rows[id].state.PendingUpload? && NewAtProvider(submission, issued)
      modifies this`rows, this`live, this`issued, this`orphans
      ensures Valid() && Evolved(old(View()), View())
      ensures outcome == Answer(admitted, submission, id)
      ensures id in rows && rows == old(rows)[id := rows[id]]
      ensures rows[id].state == StateAfter(admitted, submission, Uploaded)
      ensures rows[id].provider == ObjectAfter(admitted, submission)
      ensures orphans == old(orphans) + LeftIds(admitted, submission) && LeftIds(admitted, submission) <= live.Keys
    {
      ghost var before := View();
      var legal := Claim(id, captions);
      if !legal {
        return IllegalTransition;
      }
      ghost var between := View();
      outcome := SubmitToProvider(id, admitted, captions, submission);
      EvolvedIsTransitive(before, between, View());
    }

    /** Staff upload of a whole master. `target` is the row it is about, if it got that far. The same
        master is never stored twice: a row in flight answers for it, and a failed one is reused. */
    method IngestMaster(
      episode: EpisodeId, checksum: string, captions: bool, admitted: bool, valid: bool, expiry: Expiry,
      admittedAtSubmit: bool, submission: Submission, poll: Poll)
      returns (outcome: Outcome, ghost target: Option<AssetId>)
      requires Valid() && NewAtProvider(submission, issued)
      modifies this
      ensures Valid() && Evolved(old(View()), View())
      ensures !admitted || !valid ==>
        View() == old(View()) && outcome == if !admitted then AdmissionDenied else InvalidUpload
      ensures forall id :: admitted && valid && Active(old(rows), id, episode) && old(rows)[id].checksum == checksum ==>
        && outcome == (if old(rows)[id].state.Processing? && !admittedAtSubmit then AdmissionDenied else Accepted(id))
        && (!old(rows)[id].state.Processing? ==> View() == old(View()))
      ensures forall id :: admitted && valid && Newest(old(rows), id, episode, checksum) ==>
        target == Some(id)
        && outcome == if old(rows)[id].provider.Some? && !expiry.ExpiryWorks? then ProviderFailed
                      else Answer(admittedAtSubmit, submission, id)
      ensures outcome.ActiveExists? <==>
        admitted && valid && exists id :: Active(old(rows), id, episode) && old(rows)[id].checksum != checksum
      ensures outcome.ActiveExists? ==> View() == old(View())
      ensures !outcome.IllegalTransition?
      ensures outcome.Accepted? ==>
        && target == Some(outcome.id) && outcome.id in rows
        && rows[outcome.id].episode == episode && rows[outcome.id].checksum == checksum
      ensures forall id :: id in old(rows) && Some(id) != target ==> id in rows && rows[id] == old(rows)[id]
      ensures forall id :: id in rows && id !in old(rows) ==>
          Some(id) == target && NewMaster(old(rows), episode, checksum)
      ensures admitted && valid && NewMaster(old(rows), episode, checksum) ==>
        outcome == Answer(admittedAtSubmit, submission, old(next))
      ensures outcome.Accepted? && (forall id :: !Active(old(rows), id, episode)) ==>
        && rows[outcome.id].state == StateAfter(true, submission, Failed)
        && rows[outcome.id].provider == ObjectAfter(true, submission)
        && orphans == old(orphans) + LeftIds(true, submission) && LeftIds(true, submission) <= live.Keys
    {
      target := None;
      if !admitted {
        return AdmissionDenied, target;
      }
      if !valid {
        return InvalidUpload, target;
      }
      var existing := FindActive(episode);
      if existing.Some? {
        var id := existing.value;
        assert forall other :: Active(rows, other, episode) ==> other == id;
        if rows[id].checksum != checksum {
          return ActiveExists, target;
        }
        target := Some(id);
        outcome := AnswerActive(id, admittedAtSubmit, poll);
        return outcome, target;
      }
      outcome, target := SubmitMaster(episode, checksum, captions, expiry, admittedAtSubmit, submission);
    }

    /** A row in flight answers for its master; a processing one asks the provider first. */
    method AnswerActive(id: AssetId, admitted: bool, poll: Poll) returns (outcome: Outcome)
      requires Valid() && id in rows && InFlight(rows[id].state)
      modifies this`rows
      ensures Valid() && Evolved(old(View()), View())
      ensures id in rows && rows == old(rows)[id := rows[id]]
      ensures outcome == if old(rows[id]).state.Processing? && !admitted then AdmissionDenied else Accepted(id)
      ensures !old(rows[id]).state.Processing? ==> rows == old(rows)
    {
      if rows[id].state.Processing? {
        outcome := Reconcile(id, admitted, poll);
        return;
      }
      return Accepted(id);
    }

    /** With nothing of the episode in flight, the newest failed row of the master is submitted again, or a
        new row is. */
    method SubmitMaster(
      episode: EpisodeId, checksum: string, captions: bool, expiry: Expiry, admitted: bool, submission: Submission)
      returns (outcome: Outcome, ghost target: Option<AssetId>)
      requires Valid() && (forall other :: !Active(rows, other, episode)) && NewAtProvider(submission, issued)
      modifies this
      ensures Valid() && Evolved(old(View()), View())
      ensures target.Some? && target.value in rows && rows == old(rows)[target.value := rows[target.value]]
      ensures rows[target.value].episode == episode && rows[target.value].checksum == checksum
      ensures if target.value in old(rows) then Newest(old(rows), target.value, episode, checksum)
              else target.value == old(next) && NewMaster(old(rows), episode, checksum)
      ensures outcome ==
              if target.value in old(rows) && old(rows)[target.value].provider.Some? && !expiry.ExpiryWorks?
              then ProviderFailed else Answer(admitted, submission, target.value)
      ensures outcome.Accepted? ==>
        && rows[target.value].state == StateAfter(true, submission, Failed)
        && rows[target.value].provider == ObjectAfter(true, submission)
        && orphans == old(orphans) + LeftIds(true, submission) && LeftIds(true, submission) <= live.Keys
    {
      var failed := FindFailed(episode, checksum);
      if failed.Some? {
        target := failed;
        outcome := Resubmit(failed.value, captions, expiry, admitted, submission);
        return;
      }
      target := Some(next);
      outcome := CreateAndSubmit(episode, checksum, captions, admitted, submission);
    }

    /** A new row, submitted at once. */
    method CreateAndSubmit(episode: EpisodeId, checksum: string, captions: bool, admitted: bool, submission: Submission)
      returns (outcome: Outcome)
      requires Valid() && (forall other :: !Active(rows, other, episode)) && NewAtProvider(submission, issued)
      modifies this
      ensures Valid() && Evolved(old(View()), View())
      ensures outcome == Answer(admitted, submission, old(next))
      ensures old(next) !in old(rows) && old(next) in rows && rows == old(rows)[old(next) := rows[old(next)]]
      ensures rows[old(next)].episode == episode && rows[old(next)].checksum == checksum
      ensures rows[old(next)].state == StateAfter(admitted, submission, Uploaded)
      ensures rows[old(next)].provider == ObjectAfter(admitted, submission)
      ensures orphans == old(orphans) + LeftIds(admitted, submission) && LeftIds(admitted, submission) <= live.Keys
    {
      ghost var before := View();
      var id := CreatePending(episode, checksum, captions);
      ghost var between := View();
      outcome := ClaimAndSubmit(id, captions, admitted, submission);
      EvolvedIsTransitive(before, between, View());
    }

    /** A failed row gives up its object and is submitted again. */
    method Resubmit(id: AssetId, captions: bool, expiry: Expiry, admitted: bool, submission: Submission)
      returns (outcome: Outcome)
      requires Valid() && id in rows && rows[id].state.Failed?
      requires forall other :: !Active(rows, other, rows[id].episode)
      requires NewAtProvider(submission, issued)
      modifies this`rows, this`live, this`issued, this`orphans
      ensures Valid() && Evolved(old(View()), View())
      ensures outcome == if old(rows[id]).provider.Some? && !expiry.ExpiryWorks? then ProviderFailed
                         else Answer(admitted, submission, id)
      ensures id in rows && rows == old(rows)[id := rows[id]]
      ensures outcome.ProviderFailed? ==> rows == old(rows)
      ensures outcome.Accepted? ==>
        && rows[id].state == StateAfter(true, submission, Failed)
        && rows[id].provider == ObjectAfter(true, submission)
        && orphans == old(orphans) + LeftIds(true, submission) && LeftIds(true, submission) <= live.Keys
    {
      ghost var before := View();
      var expired := GiveUpObject(id, captions, expiry);
      if !expired {
        return ProviderFailed;
      }
      ghost var between := View();
      outcome := SubmitToProvider(id, admitted, captions, submission);
      EvolvedIsTransitive(before, between, View());
    }

    /** Expires a failed row's object and blanks its reference, or leaves the row. */
    method GiveUpObject(id: AssetId, captions: bool, expiry: Expiry) returns (expired: bool)
      requires Valid() && id in rows && rows[id].state.Failed?
      requires forall other :: !Active(rows, other, rows[id].episode)
      modifies this`rows, this`live
      ensures Valid() && Evolved(old(View()), View())
      ensures expired <==> old(rows[id]).provider.None? || expiry.ExpiryWorks?
      ensures rows ==
              if expired then old(rows)[id := old(rows[id]).(provider := None, captions := captions)] else old(rows)
      ensures Free(rows, id, rows[id].(state := Processing))
    {
      ghost var before := rows;
      expired := ExpireProviderAsset(rows[id], expiry);
      FewerObjectsIsSound(old(View()), live);
      if expired {
        SavedIsSound(View(), id, rows[id].(provider := None, captions := captions));
        rows := rows[id := rows[id].(provider := None, captions := captions)];
      }
      NoneActiveIsFree(before, rows, id);
    }

    /** Reserves a row for a direct upload; asking again for the same master answers with the same row.
        The row is saved before its upload address is minted, and stays when that fails. */
    method BeginStaffUpload(episode: EpisodeId, checksum: string, admitted: bool, valid: bool, minted: bool)
      returns (outcome: Outcome)
      requires Valid()
      modifies this`rows, this`next
      ensures Valid() && Evolved(old(View()), View())
      ensures outcome.AdmissionDenied? || outcome.InvalidUpload? || outcome.ActiveExists? || outcome.Accepted?
              || outcome.NotMinted?
      ensures outcome.AdmissionDenied? <==> !admitted
      ensures outcome.InvalidUpload? <==> admitted && !valid
      ensures !outcome.Accepted? && !outcome.NotMinted? ==> View() == old(View())
      ensures admitted && valid && (forall id :: !Active(old(rows), id, episode)) ==>
        && outcome == (if minted then Accepted(old(next)) else NotMinted(old(next)))
        && rows == old(rows)[old(next) := Asset(episode, checksum, None, PendingUpload, false, 0, 0, "")]
      ensures outcome.Accepted? || outcome.NotMinted? ==>
        && (outcome.Accepted? <==> minted)
        && Active(rows, outcome.id, episode) && rows[outcome.id].checksum == checksum
        && rows[outcome.id].state.PendingUpload?
        && rows == old(rows)[outcome.id := rows[outcome.id]]
        && (outcome.id in old(rows) ==> rows == old(rows))
      ensures outcome.ActiveExists? <==>
        && admitted && valid
        && exists id ::
             && Active(old(rows), id, episode)
             && (old(rows)[id].checksum != checksum || !old(rows)[id].state.PendingUpload?)
    {
      if !admitted {
        return AdmissionDenied;
      }
      if !valid {
        return InvalidUpload;
      }
      var existing := FindActive(episode);
      if existing.Some? {
        var found := rows[existing.value];
        assert forall other :: Active(rows, other, episode) ==> other == existing.value;
        if found.checksum != checksum || !found.state.PendingUpload? {
          return ActiveExists;
        }
        return if minted then Accepted(existing.value) else NotMinted(existing.value);
      }
      var id := CreatePending(episode, checksum, false);
      return if minted then Accepted(id) else NotMinted(id);
    }

    /** Completes a direct upload. Only a pending row is claimed, so only one completion submits; a row
        already claimed answers as it is. `stored` is the checksum of the uploaded bytes, if usable. */
    method CompleteStaffUpload(
      id: AssetId, admitted: bool, valid: bool, stored: Option<string>, captions: bool,
      admittedAtSubmit: bool, submission: Submission)
      returns (outcome: Outcome)
      requires Valid() && id in rows && NewAtProvider(submission, issued)
      modifies this`rows, this`live, this`issued, this`orphans
      ensures Valid() && Evolved(old(View()), View())
      ensures id in rows && rows == old(rows)[id := rows[id]]
      ensures !outcome.IllegalTransition?
      ensures rows != old(rows) ==>
          admitted && valid && old(rows[id]).state.PendingUpload? && stored == Some(old(rows[id]).checksum)
      ensures admitted && valid && old(rows[id]).state.PendingUpload? && stored == Some(old(rows[id]).checksum) ==>
        && outcome == Answer(admittedAtSubmit, submission, id)
        && rows[id].state == StateAfter(admittedAtSubmit, submission, Uploaded)
        && rows[id].provider == ObjectAfter(admittedAtSubmit, submission)
      ensures !admitted ==> outcome == AdmissionDenied
      ensures outcome.InvalidUpload? <==>
        && admitted
        && (!valid || (old(rows[id]).state.PendingUpload? && stored != Some(old(rows[id]).checksum)))
      ensures outcome.NotCompletable? <==>
        && admitted && valid
        && (old(rows[id]).state.Failed? || old(rows[id]).state.Blocked? || old(rows[id]).state.Removed?)
      ensures
        && admitted && valid
        && (old(rows[id]).state.Uploaded? || old(rows[id]).state.Processing? || old(rows[id]).state.Ready?)
        ==> outcome == Accepted(id)
    {
      if !admitted {
        return AdmissionDenied;
      }
      if !valid {
        return InvalidUpload;
      }
      var a := rows[id];
      if !a.state.PendingUpload? {
        return if InFlight(a.state) then Accepted(id) else NotCompletable;
      }
      if stored != Some(a.checksum) {
        return InvalidUpload;
      }
      outcome := ClaimAndSubmit(id, captions, admittedAtSubmit, submission);
    }

    /** Removes the provider object and then the row, or neither: a row is only marked removed when its
        object is gone. */
    method TakedownAsset(id: AssetId, expiry: Expiry) returns (outcome: Outcome)
      requires Valid() && id in rows
      modifies this`rows, this`live
      ensures Valid() && Evolved(old(View()), View())
      ensures outcome == if old(rows[id]).provider.None? || expiry.ExpiryWorks? then Accepted(id) else ProviderFailed
      ensures id in rows
      ensures outcome.Accepted? ==>
        && rows == old(rows)[id := old(rows[id]).(state := Removed)]
        && (rows[id].provider.Some? ==> live == old(live) - {rows[id].provider.value})
      ensures !outcome.Accepted? ==> rows == old(rows)[id := old(rows[id]).(diagnostic := rows[id].diagnostic)]
    {
      var a := rows[id];
      ghost var before := View();
      OnlyActive(before, id);
      var expired := ExpireProviderAsset(a, expiry);
      if !expired {
        rows := rows[id := a.(
          diagnostic :=
            if expiry.NoProvider? then "Video provider is unset or disabled." else "Provider takedown failed.")];
        if a.state.Removed? {
          RemovedObjectIsGone(before, id, a.provider.value);
        }
        RowChanged(before, View(), id);
        return ProviderFailed;
      }
      if !a.state.Removed? && !Allowed(a.state, Removed) {
        return IllegalTransition;
      }
      var saved := Save(id, a.(state := Removed));
      RowChanged(before, View(), id);
      return Accepted(id);
    }

    /** Deleting a row expires its object first; if that fails the row stays. */
    method DeleteAsset(id: AssetId, expiry: Expiry) returns (deleted: bool)
      requires Valid() && id in rows
      modifies this`rows, this`live
      ensures Valid() && Evolved(old(View()), View())
      ensures deleted <==> old(rows[id]).provider.None? || expiry.ExpiryWorks?
      ensures rows == if deleted then old(rows) - {id} else old(rows)
    {
      ghost var before := View();
      deleted := ExpireProviderAsset(rows[id], expiry);
      FewerObjectsIsSound(before, live);
      if deleted {
        DeletedIsSound(View(), id);
        rows := rows - {id};
      }
    }

    /** The provider's own work: objects are encoded, change or disappear. Everything the library keeps
        survives it. */
    method ProviderWorks(changed: map<ProviderId, Metadata>)
      requires Valid() && changed.Keys <= live.Keys
      modifies this`live
      ensures Valid() && Evolved(old(View()), View()) && live == changed
    {
      FewerObjectsIsSound(View(), changed);
      live := changed;
    }
  }

  /** A submission that fails after it created the object leaves it at the provider, live and kept by no
      row, although the library is sound: takedowns and deletions expire only what a row names. */
  method LeaveAnOrphan(left: Metadata) returns (library: MediaLibrary)
    ensures fresh(library) && library.Valid() && !AllKept(library.View())
    ensures 0 in library.live && forall id :: id in library.rows ==> library.rows[id].provider.None?
  {
    library := new MediaLibrary();
    var outcome;
    ghost var target;
    outcome, target := library.IngestMaster(
      7, "master", true, true, true, ExpiryWorks, true, SubmitFails(Some((0, left))), PollFails);
    AllKeptIff(library.View());
  }

  lemma NoneActiveIsFree(before: Rows, rows: Rows, id: AssetId)
    requires id in rows && forall other :: !Active(before, other, rows[id].episode)
    requires forall other :: other in rows && other != id ==> other in before && rows[other] == before[other]
    ensures Free(rows, id, rows[id].(state := Processing))
  {
    forall other | other in rows && other != id && rows[other].episode == rows[id].episode
      ensures !InFlight(rows[other].state)
    {
      assert !Active(before, other, rows[id].episode);
    }
  }

  const ACTIVE_EXISTS :=
    "This episode already has in-flight or ready media. Takedown the current asset before uploading a new master."

  /** A row in flight is the only one of its episode. */
  lemma OnlyActive(m: Library, id: AssetId)
    requires Sound(m) && id in m.rows
    ensures Free(m.rows, id, m.rows[id])
  {
    if InFlight(m.rows[id].state) {
      forall other | other in m.rows && other != id && m.rows[other].episode == m.rows[id].episode
        ensures !InFlight(m.rows[other].state)
      {
        assert Active(m.rows, id, m.rows[id].episode);
        if InFlight(m.rows[other].state) {
          assert Active(m.rows, other, m.rows[id].episode);
        }
      }
    }
  }
}
