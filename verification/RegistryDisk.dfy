/**
 The registry file against the registry in memory: a mutation saves, reads the file back, and decides
 by comparing; a read or mutation first compares fingerprints and fails closed.  Anything else may
 edit the file at any time, also between any two of the accesses of a mutation.
 */
module RegistryDisk {
  import opened Outcomes
  import opened Registry

  /** `stamp` is the modification time. */
  datatype File = File(text: string, stamp: nat)

  datatype DiskError = SaveFailed | UnexpectedImage | Unverified | Drifted

  type Fingerprint = nat

  /** The JSON codec of the registry and the fingerprint of a file. */
  datatype Codec = Codec(serialize: Image -> string, parse: string -> Option<Image>, fingerprint: File -> Fingerprint)

  /** Serializing round-trips on valid registries, only valid ones parse, and fingerprints tell texts apart. */
  ghost predicate CodecSound(c: Codec)
  {
    && (forall image | Valid(image) :: c.parse(c.serialize(image)) == Some(image))
    && (forall text :: c.parse(text).Some? ==> Valid(c.parse(text).value))
    && (forall f, g :: c.fingerprint(f) == c.fingerprint(g) ==> f.text == g.text)
  }

  const EMPTY: Image := Image(map[], map[])

  /** A missing file is the empty registry. */
  function Load(c: Codec, file: Option<File>): (r: Option<Image>)
  {
    if file.None? then Some(EMPTY) else c.parse(file.value.text)
  }

  function FingerprintOf(c: Codec, file: Option<File>): (r: Option<Fingerprint>)
  {
    if file.None? then None else Some(c.fingerprint(file.value))
  }

  datatype Memory = Memory(image: Image, fingerprint: Option<Fingerprint>)

  // ---- committing ------------------------------------------------------------------------------------

  /**
   The save replaces the file or leaves it, and may report an error either way, but never reports success
   without replacing.
   */
  datatype Save = Save(ok: bool, replaced: bool, stamp: nat)

  /** What an external edit leaves: a file, or none. */
  type Edit = Option<Option<File>>

  /** External edits: after the save, between the two reads of the verification, and before the fingerprint is read. */
  datatype Edits = Edits(beforeLoad: Edit, beforeRaw: Edit, beforeFingerprint: Edit)

  /** What the file system does during one commit; a load or the raw read may also fail for reasons of its own. */
  datatype Weather = Weather(save: Save, edits: Edits, loadOk: bool, rawOk: bool)

  predicate Possible(weather: Weather)
  {
    weather.save.ok ==> weather.save.replaced
  }

  function Edited(file: Option<File>, edit: Edit): (r: Option<File>)
  {
    if edit.Some? then edit.value else file
  }

  /** The file as the verification loads it, as it reads it raw, and as its fingerprint is taken. */
  function AtLoad(c: Codec, next: Image, before: Option<File>, w: Weather): (r: Option<File>)
  {
    Edited(if w.save.replaced then Some(File(c.serialize(next), w.save.stamp)) else before, w.edits.beforeLoad)
  }

  function AtRaw(c: Codec, next: Image, before: Option<File>, w: Weather): (r: Option<File>)
  {
    Edited(AtLoad(c, next, before, w), w.edits.beforeRaw)
  }

  function AtFingerprint(c: Codec, next: Image, before: Option<File>, w: Weather): (r: Option<File>)
  {
    Edited(AtRaw(c, next, before, w), w.edits.beforeFingerprint)
  }

  /** The image the verification sees, if it can read one. */
  function Loaded(c: Codec, next: Image, before: Option<File>, w: Weather): (r: Option<Image>)
  {
    if w.loadOk then Load(c, AtLoad(c, next, before, w)) else None
  }

  /** The raw read has no special case for a missing file. */
  function ReadRaw(c: Codec, next: Image, before: Option<File>, w: Weather): (r: Option<Image>)
  {
    var file := AtRaw(c, next, before, w);
    if w.rawOk && file.Some? then c.parse(file.value.text) else None
  }

  function Verdict(current: Image, next: Image, saveOk: bool, loaded: Option<Image>, raw: Option<Image>): (r: Result<(), DiskError>)
  {
    if loaded.Some? then
      if loaded.value == next then Ok(())
      else if !saveOk && loaded.value == current then Err(SaveFailed)
      else Err(UnexpectedImage)
    else if saveOk then Ok(())
    else if raw.None? then Err(Unverified)
    else if raw.value == next then Ok(())
    else if raw.value == current then Err(SaveFailed)
    else Err(UnexpectedImage)
  }

  function CommitVerdict(c: Codec, current: Image, next: Image, before: Option<File>, w: Weather): (r: Result<(), DiskError>)
  {
    Verdict(current, next, w.save.ok, Loaded(c, next, before, w), ReadRaw(c, next, before, w))
  }

  /** What the commit saw of the file last: at the load, or else, when the save had failed, at the raw read. */
  function Seen(c: Codec, next: Image, before: Option<File>, w: Weather): (r: Option<Image>)
  {
    if Loaded(c, next, before, w).Some? || w.save.ok then Loaded(c, next, before, w) else ReadRaw(c, next, before, w)
  }

  /**
   A commit goes through if and only if the file was last seen to hold the new registry, or the save succeeded and
   nothing was seen.  It reports a failed save exactly when that failed and the file still held the old registry,
   an unverified one exactly when it failed and nothing was seen, and else that something else was there.
   */
  lemma VerdictMeans(c: Codec, current: Image, next: Image, before: Option<File>, w: Weather)
    ensures var verdict, seen := CommitVerdict(c, current, next, before, w), Seen(c, next, before, w);
      && (verdict == Ok(()) <==> seen == Some(next) || (w.save.ok && seen.None?))
      && (verdict == Err(SaveFailed) <==> !w.save.ok && seen == Some(current) && current != next)
      && (verdict == Err(Unverified) <==> !w.save.ok && seen.None?)
      && (verdict == Err(UnexpectedImage) <==>
           seen.Some? && seen != Some(next) && (w.save.ok || seen != Some(current)))
  {
  }

  /** With no one else at the file: a save that replaces it commits, and one that leaves it fails, as long as it can be loaded. */
  lemma LoneCommitDecidesBySave(c: Codec, current: Image, next: Image, before: Option<File>, w: Weather)
    requires CodecSound(c) && Valid(next) && w.edits == Edits(None, None, None) && w.loadOk
    requires Load(c, before) == Some(current) && current != next && Possible(w)
    ensures var verdict, file := CommitVerdict(c, current, next, before, w), AtFingerprint(c, next, before, w);
            if w.save.replaced then verdict == Ok(()) && file == Some(File(c.serialize(next), w.save.stamp))
            else verdict == Err(SaveFailed) && file == before
  {
  }

  /** When the file cannot be loaded the save's own report is believed, or else the raw text. */
  lemma UnloadableCommit(c: Codec, current: Image, next: Image, before: Option<File>, w: Weather)
    requires CodecSound(c) && Valid(next) && w.edits == Edits(None, None, None) && !w.loadOk && Possible(w)
    requires before.Some? && c.parse(before.value.text) == Some(current) && current != next
    ensures CommitVerdict(c, current, next, before, w) ==
              if w.save.ok then Ok(())
              else if !w.rawOk then Err(Unverified)
              else if w.save.replaced then Ok(())
              else Err(SaveFailed)
  {
  }

  /**
   The last edit after the commit last knew what the file held.  It knew at the load, if that read an image;
   else at the raw read, if the save had failed; else only at the save itself.
   */
  function Disturbance(c: Codec, next: Image, before: Option<File>, w: Weather): (r: Edit)
  {
    var loaded := Loaded(c, next, before, w).Some?;
    if w.edits.beforeFingerprint.Some? then w.edits.beforeFingerprint
    else if w.edits.beforeRaw.Some? && (loaded || w.save.ok) then w.edits.beforeRaw
    else if w.edits.beforeLoad.Some? && !loaded && w.save.ok then w.edits.beforeLoad
    else None
  }

  /** Nothing disturbed the commit, or what disturbed it left the new registry all the same. */
  predicate Undisturbed(c: Codec, next: Image, before: Option<File>, w: Weather)
  {
    var edit := Disturbance(c, next, before, w);
    edit.None? || Load(c, edit.value) == Some(next)
  }

  /**
   When a commit goes through, the file whose fingerprint is taken holds the new registry if and only if the
   commit was not disturbed: no edit came after the commit last knew the file, or the last such edit left the
   new registry.
   */
  lemma CommittedMeansOnDisk(c: Codec, current: Image, next: Image, before: Option<File>, w: Weather)
    requires CodecSound(c) && Valid(next) && Possible(w)
    requires CommitVerdict(c, current, next, before, w).Ok?
    ensures Load(c, AtFingerprint(c, next, before, w)) == Some(next) <==> Undisturbed(c, next, before, w)
  {
  }

  /** A save that succeeded is trusted when the file cannot be read back, whatever an edit has left of it. */
  lemma UnverifiedSaveIsTrusted(c: Codec, current: Image, next: Image, before: Option<File>, w: Weather)
    requires Possible(w) && w.save.ok && Loaded(c, next, before, w).None?
    ensures CommitVerdict(c, current, next, before, w).Ok?
    ensures w.edits.beforeRaw.None? && w.edits.beforeFingerprint.None? && w.edits.beforeLoad.Some? ==>
              AtFingerprint(c, next, before, w) == w.edits.beforeLoad.value
  {
  }

  // ---- the whole life of the file ------------------------------------------------------------------------

  /** `committed` is the file whose fingerprint memory last took; it need not be the file that is there now. */
  datatype State = State(disk: Option<File>, memory: Memory, committed: Option<File>)

  datatype Event =
    | EditFile(file: Option<File>)
    | Mutate(next: Image, weather: Weather, fingerprintOk: bool)

  /** What a read or a mutation checks first. */
  predicate Matches(c: Codec, s: State)
  {
    FingerprintOf(c, s.disk) == s.memory.fingerprint
  }

  /** A mutation that gets past the check and whose verification accepts what it finds. */
  predicate Commits(c: Codec, s: State, e: Event)
  {
    e.Mutate? && Matches(c, s) && CommitVerdict(c, s.memory.image, e.next, s.disk, e.weather).Ok?
  }

  function Next(c: Codec, s: State, e: Event): (r: State)
  {
    match e
    case EditFile(file) => s.(disk := file)
    case Mutate(next, weather, fingerprintOk) =>
      if !Matches(c, s) then s
      else
        var disk := AtFingerprint(c, next, s.disk, weather);
        if !Commits(c, s, e) then s.(disk := disk)
        else State(disk, Memory(next, if fingerprintOk then FingerprintOf(c, disk) else None), if fingerprintOk then disk else None)
  }

  /** Memory remembers the fingerprint of `committed`, or of no file. */
  predicate Tracked(c: Codec, s: State)
  {
    s.memory.fingerprint == FingerprintOf(c, s.committed)
  }

  /** A matching fingerprint means that the file parses to what is in memory. */
  predicate Agrees(c: Codec, s: State)
  {
    Matches(c, s) ==> Load(c, s.disk) == Some(s.memory.image)
  }

  predicate Anchored(c: Codec, s: State)
  {
    Tracked(c, s) && Load(c, s.committed) == Some(s.memory.image)
  }

  /** The fingerprint can be trusted whatever happens to the file exactly when it was taken of the registry in memory. */
  lemma AnchoredIsAgreementForEver(c: Codec, s: State)
    requires CodecSound(c) && Tracked(c, s)
    ensures Anchored(c, s) <==> forall file :: Agrees(c, s.(disk := file))
  {
    if forall file :: Agrees(c, s.(disk := file)) {
      assert Agrees(c, s.(disk := s.committed));
    }
  }

  /**
   What keeps the fingerprint trustworthy through one event: a commit is not disturbed and its fingerprint is
   read; or it is not read, and the new registry is the empty one, which is what no file means.
   */
  predicate Faithful(c: Codec, s: State, e: Event)
  {
    Commits(c, s, e) ==> if e.fingerprintOk then Undisturbed(c, e.next, s.disk, e.weather) else e.next == EMPTY
  }

  predicate EventOk(e: Event)
  {
    e.Mutate? ==> Possible(e.weather)
  }

  /** An event keeps the fingerprint trustworthy if and only if it is faithful. */
  lemma AnchoredExactlyAfterFaithful(c: Codec, s: State, e: Event)
    requires CodecSound(c) && Anchored(c, s) && EventOk(e) && (e.Mutate? ==> Valid(e.next))
    ensures Tracked(c, Next(c, s, e))
    ensures Anchored(c, Next(c, s, e)) <==> Faithful(c, s, e)
  {
    if Commits(c, s, e) {
      CommittedMeansOnDisk(c, s.memory.image, e.next, s.disk, e.weather);
    }
  }

  ghost predicate IsRun(c: Codec, states: seq<State>, events: seq<Event>)
  {
    && |states| == |events| + 1
    && Anchored(c, states[0])
    && forall i | 0 <= i < |events| ::
         EventOk(events[i]) && (events[i].Mutate? ==> Valid(events[i].next)) && states[i + 1] == Next(c, states[i], events[i])
  }

  ghost predicate FaithfulBefore(c: Codec, states: seq<State>, events: seq<Event>, n: nat)
    requires |states| == |events| + 1 && n <= |events|
  {
    forall i | 0 <= i < n :: Faithful(c, states[i], events[i])
  }

  ghost predicate TrustedUpTo(c: Codec, states: seq<State>, n: nat)
    requires n < |states|
  {
    forall i | 0 <= i <= n :: Anchored(c, states[i])
  }

  /**
   Whatever saves, loads and edits do, at any point: up to a state all fingerprints can be trusted if and only
   if all events so far were faithful.
   */
  lemma {:induction false} TrustedExactlyWhileFaithful(c: Codec, states: seq<State>, events: seq<Event>, n: nat)
    requires CodecSound(c) && IsRun(c, states, events) && n < |states|
    ensures TrustedUpTo(c, states, n) <==> FaithfulBefore(c, states, events, n)
  {
    hide Faithful, Anchored, Next, CodecSound;
    if n > 0 {
      TrustedExactlyWhileFaithful(c, states, events, n - 1);
      assert FaithfulBefore(c, states, events, n) <==> FaithfulBefore(c, states, events, n - 1) && Faithful(c, states[n - 1], events[n - 1]);
      assert TrustedUpTo(c, states, n) <==> TrustedUpTo(c, states, n - 1) && Anchored(c, states[n]);
      if TrustedUpTo(c, states, n - 1) {
        assert Anchored(c, states[n - 1]);
        AnchoredExactlyAfterFaithful(c, states[n - 1], events[n - 1]);
      }
    }
  }

  /**
   In a run of faithful events a matching fingerprint means that the file parses to the registry in memory, so a
   read sees agreement or fails; and memory changes only together with the file.
   */
  lemma MatchingFingerprintMeansAgreement(c: Codec, states: seq<State>, events: seq<Event>, n: nat)
    requires CodecSound(c) && IsRun(c, states, events) && n < |states| && FaithfulBefore(c, states, events, n)
    ensures Agrees(c, states[n])
    ensures n < |events| && states[n + 1].memory.image != states[n].memory.image ==>
              && Load(c, states[n].disk) == Some(states[n].memory.image)
              && (Undisturbed(c, events[n].next, states[n].disk, events[n].weather) <==>
                   Load(c, states[n + 1].disk) == Some(states[n + 1].memory.image))
    ensures n < |events| && states[n + 1].memory.image != states[n].memory.image ==> events[n].Mutate?
  {
    TrustedExactlyWhileFaithful(c, states, events, n);
    assert Anchored(c, states[n]);
    AnchoredIsAgreementForEver(c, states[n]);
    assert Agrees(c, states[n].(disk := states[n].disk));
    if n < |events| && Commits(c, states[n], events[n]) {
      CommittedMeansOnDisk(c, states[n].memory.image, events[n].next, states[n].disk, events[n].weather);
    }
  }

  /**
   An edit between the verification and the fingerprint: memory takes the fingerprint of the edited file, the
   next check passes, and what is served is not what the file holds.
   */
  lemma LateEditCanDisagree(c: Codec, s: State, next: Image, w: Weather, edited: Option<File>)
    requires CodecSound(c) && Anchored(c, s) && Matches(c, s) && Valid(next)
    requires w.save.ok && w.save.replaced && w.loadOk && w.edits == Edits(None, None, Some(edited))
    requires Load(c, edited) != Some(next)
    ensures var after := Next(c, s, Mutate(next, w, true));
            && CommitVerdict(c, s.memory.image, next, s.disk, w).Ok?
            && Matches(c, after) && after.memory.image == next && !Agrees(c, after)
  {
  }

  /**
   When the fingerprint cannot be read after a commit, memory remembers "no file": deleting the file
   then passes the check although memory is not the empty registry.
   */
  lemma UnreadableFingerprintCanDisagree(c: Codec, s: State, next: Image, w: Weather)
    requires CodecSound(c) && Commits(c, s, Mutate(next, w, false)) && next != EMPTY
    ensures var after := Next(c, Next(c, s, Mutate(next, w, false)), EditFile(None));
            Matches(c, after) && !Agrees(c, after)
  {
  }

  // ---- the mutation as the source runs it ------------------------------------------------------------------

  class DaemonRegistry {
    var disk: Option<File>
    var image: Image
    var fingerprint: Option<Fingerprint>

    ghost function View(committed: Option<File>): (s: State)
      reads this
    {
      State(disk, Memory(image, fingerprint), committed)
    }

    /** The fingerprint is trustworthy from the start exactly when it is taken of the registry that is handed in. */
    constructor (c: Codec, disk: Option<File>, image: Image, fingerprintOk: bool)
      ensures var committed := if fingerprintOk then disk else None;
              && View(committed) == State(disk, Memory(image, FingerprintOf(c, committed)), committed)
              && (Anchored(c, View(committed)) <==> if fingerprintOk then Load(c, disk) == Some(image) else image == EMPTY)
    {
      this.disk := disk;
      this.image := image;
      fingerprint := if fingerprintOk then FingerprintOf(c, disk) else None;
    }

    /** Fails closed when the file is not the one memory last took the fingerprint of. */
    method List(c: Codec, ghost committed: Option<File>) returns (r: Result<Image, DiskError>)
      ensures r == if Matches(c, View(committed)) then Ok(image) else Err(Drifted)
      ensures CodecSound(c) && Anchored(c, View(committed)) && r.Ok? ==> Load(c, disk) == Some(r.value)
    {
      if FingerprintOf(c, disk) != fingerprint {
        return Err(Drifted);
      }
      return Ok(image);
    }

    /** What others do to the file. */
    method Disturb(edit: Edit)
      modifies this`disk
      ensures disk == Edited(old(disk), edit)
    {
      if edit.Some? {
        disk := edit.value;
      }
    }

    /** `w` and `fingerprintOk` are what the file system does meanwhile. */
    method Mutate(c: Codec, next: Image, w: Weather, fingerprintOk: bool, ghost committed: Option<File>)
        returns (r: Result<(), DiskError>)
      modifies this
      ensures Next(c, old(View(committed)), Event.Mutate(next, w, fingerprintOk))
              == View(if r.Ok? then (if fingerprintOk then disk else None) else committed)
      ensures r == if !Matches(c, old(View(committed))) then Err(Drifted)
                   else CommitVerdict(c, old(image), next, old(disk), w)
      ensures r.Err? ==> image == old(image) && fingerprint == old(fingerprint)
    {
      if FingerprintOf(c, disk) != fingerprint {
        return Err(Drifted);
      }
      var current := image;
      if w.save.replaced {
        disk := Some(File(c.serialize(next), w.save.stamp));
      }
      Disturb(w.edits.beforeLoad);
      var loaded := if w.loadOk then Load(c, disk) else None;
      Disturb(w.edits.beforeRaw);
      var raw := None;
      if loaded.None? && !w.save.ok && w.rawOk && disk.Some? {
        raw := c.parse(disk.value.text);
      }
      Disturb(w.edits.beforeFingerprint);
      r := Verdict(current, next, w.save.ok, loaded, raw);
      if r.Ok? {
        fingerprint := if fingerprintOk then FingerprintOf(c, disk) else None;
        image := next;
      }
    }
  }
}
