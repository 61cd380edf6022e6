/**
 The two passes of a prune with others at work between all of its steps: they take and release keys,
 store and remove entries under them, and touch any entry without a lock. Entries go by their digest;
 a step is one look or one removal of the prune, or one action of somebody else.
 */
module PrunePasses {
  import opened Common
  import opened FileNames
  import opened Lookup
  import opened PruneSpec
  import opened PlainTerms
  import opened Sorting

  /** One prune: its clock sample, its limits, and whether it counted the cache over a hard cap. */
  datatype Prune = Prune(now: nat, limits: Limits, over: bool)

  /** In `Judged` and `Evicting` the prune holds the key, and has looked at `file` under it. */
  datatype Phase =
    | Looking
    | Judged(d: string, file: File)
    | Choosing(rest: seq<Rank>)
    | Evicting(rank: Rank, file: File, rest: seq<Rank>)
    | Ended

  /** `held` are the keys of others. `looked` is what the first pass saw of each entry. */
  datatype State = State(
    entries: map<string, File>, held: set<string>, phase: Phase,
    seen: set<string>, looked: map<string, File>, kept: set<Rank>, left: Usage)

  datatype Step =
    | Look(d: string)
    | Skip(d: string)
    | Judge
    | EndFirst(q: seq<Rank>)
    | SecondLook
    | Evict
    | Stop
    | Hold(d: string)
    | Release(d: string)
    | StoreEntry(d: string, bytes: Bytes, at: nat)
    | RemoveEntry(d: string)
    | Touch(d: string, at: nat)

  /** The key the prune holds. */
  function OwnKey(p: Phase): Option<string> {
    match p
    case Judged(d, _) => Some(d)
    case Evicting(r, _, _) => Some(r.digest)
    case _ => None
  }

  predicate IsFile(s: State, d: string) {
    d in s.entries && s.entries[d].Regular?
  }

  ghost predicate Enabled(c: Prune, s: State, st: Step) {
    match st
    case Look(d) => s.phase.Looking? && IsDigest(d) && d in s.entries && d !in s.seen && d !in s.held
    case Skip(d) => s.phase.Looking? && d !in s.seen && d in s.held
    case Judge => s.phase.Judged?
    case EndFirst(q) => s.phase.Looking? && Sorted(Before, q) && Elements(q) == s.kept
    case SecondLook => s.phase.Choosing? && s.phase.rest != [] && !Met(s.left, c.limits)
    case Evict => s.phase.Evicting?
    case Stop => s.phase.Choosing? && (s.phase.rest == [] || Met(s.left, c.limits))
    case Hold(d) => d !in s.held && OwnKey(s.phase) != Some(d)
    case Release(d) => d in s.held
    case StoreEntry(d, _, _) => d in s.held
    case RemoveEntry(d) => d in s.held
    case Touch(d, _) => IsFile(s, d)
  }

  function RankFor(d: string, file: File): Rank
    requires file.Regular?
  {
    Rank(file.modified, d, |file.bytes|)
  }

  /** The first pass acts on the file it looked at. */
  function Settle(c: Prune, s: State, d: string, file: File): State {
    match FateOf(EntryName(d), file, {}, c.now, c.limits)
    case Candidate => if file.Regular? then s.(kept := s.kept + {RankFor(d, file)}) else s
    case Odd => s.(entries := s.entries - {d})
    case Expired =>
      s.(entries := s.entries - {d}, left := Less(s.left, 1, if file.Regular? then |file.bytes| else 0))
    case Unused =>
      s.(entries := s.entries - {d}, left := Less(s.left, 1, if file.Regular? then |file.bytes| else 0))
    case _ => s
  }

  /** The second look at the next candidate: a key somebody holds and an entry whose use time is
      not the one on record are passed over; what is no regular file is removed. */
  function LookAgain(s: State, r: Rank, rest: seq<Rank>): State {
    if r.digest in s.held || r.digest !in s.entries then s.(phase := Choosing(rest))
    else match s.entries[r.digest]
      case Special => s.(entries := s.entries - {r.digest}, phase := Choosing(rest))
      case Regular(_, modified) =>
        s.(phase := if modified == r.used then Evicting(r, s.entries[r.digest], rest) else Choosing(rest))
  }

  ghost function Apply(c: Prune, s: State, st: Step): State
    requires Enabled(c, s, st)
  {
    match st
    case Look(d) =>
      s.(phase := Judged(d, s.entries[d]), seen := s.seen + {d}, looked := s.looked[d := s.entries[d]])
    case Skip(d) => s.(seen := s.seen + {d})
    case Judge => Settle(c, s, s.phase.d, s.phase.file).(phase := Looking)
    case EndFirst(q) => s.(phase := if c.over then Choosing(q) else Ended)
    case SecondLook => LookAgain(s, s.phase.rest[0], s.phase.rest[1..])
    case Evict =>
      var r := s.phase.rank;
      s.(entries := s.entries - {r.digest}, left := Less(s.left, 1, r.size), phase := Choosing(s.phase.rest))
    case Stop => s.(phase := Ended)
    case Hold(d) => s.(held := s.held + {d})
    case Release(d) => s.(held := s.held - {d})
    case StoreEntry(d, bytes, t) => s.(entries := s.entries[d := Regular(bytes, t)])
    case RemoveEntry(d) => s.(entries := s.entries - {d})
    case Touch(d, t) => s.(entries := s.entries[d := s.entries[d].(modified := t)])
  }

  ghost predicate Legal(c: Prune, s: State, steps: seq<Step>)
    decreases |steps|
  {
    steps == [] || (Enabled(c, s, steps[0]) && Legal(c, Apply(c, s, steps[0]), steps[1..]))
  }

  ghost function Run(c: Prune, s: State, steps: seq<Step>): State
    requires Legal(c, s, steps)
    decreases |steps|
  {
    if steps == [] then s else Run(c, Apply(c, s, steps[0]), steps[1..])
  }

  /** A prune about to look at its first file, in any directory with any keys held. */
  predicate Starts(s: State) {
    s.phase.Looking? && s.seen == {} && s.looked == map[] && s.kept == {}
  }

  // ---- What every step keeps ----

  /** The same file but for touches. */
  predicate Touched(file: File, now: File) {
    if file.Regular? then now.Regular? && now.bytes == file.bytes else now == file
  }

  /** A rank on record is of what the first pass saw, and that was a candidate. */
  predicate OnRecord(c: Prune, s: State, r: Rank) {
    && r.digest in s.seen && r.digest in s.looked && s.looked[r.digest].Regular?
    && r == RankFor(r.digest, s.looked[r.digest])
    && FateOf(EntryName(r.digest), s.looked[r.digest], {}, c.now, c.limits).Candidate?
  }

  /** What the prune saw under the key it holds is still there, but for touches. */
  predicate OwnKept(s: State) {
    match s.phase
    case Judged(d, file) =>
      && d !in s.held && d in s.entries && Touched(file, s.entries[d])
      && d in s.seen && d in s.looked && s.looked[d] == file
    case Evicting(r, file, _) =>
      && r.digest !in s.held && r.digest in s.entries && Touched(file, s.entries[r.digest])
      && file.Regular? && file.modified == r.used
    case _ => true
  }

  ghost predicate Inv(c: Prune, s: State) {
    && OwnKept(s)
    && (forall r :: r in s.kept ==> OnRecord(c, s, r))
    && (s.phase.Choosing? ==> c.over && forall r :: r in s.phase.rest ==> OnRecord(c, s, r))
    && (s.phase.Evicting? ==>
          && c.over && !Met(s.left, c.limits) && OnRecord(c, s, s.phase.rank)
          && forall r :: r in s.phase.rest ==> OnRecord(c, s, r))
  }

  /** What is on record stays on record: the first pass looks at each entry once. */
  lemma RecordStays(c: Prune, s: State, st: Step, r: Rank)
    requires Enabled(c, s, st) && OnRecord(c, s, r)
    ensures OnRecord(c, Apply(c, s, st), r)
  {
  }

  lemma OwnStays(c: Prune, s: State, st: Step)
    requires Inv(c, s) && Enabled(c, s, st)
    ensures OwnKept(Apply(c, s, st))
  {
  }

  lemma KeptStays(c: Prune, s: State, st: Step, r: Rank)
    requires Inv(c, s) && Enabled(c, s, st) && r in Apply(c, s, st).kept
    ensures OnRecord(c, Apply(c, s, st), r)
  {
    if r in s.kept { RecordStays(c, s, st, r); }
  }

  /** The candidates a phase still has before it. */
  function Pending(p: Phase): seq<Rank> {
    match p
    case Choosing(rest) => rest
    case Evicting(r, _, rest) => [r] + rest
    case _ => []
  }

  lemma PendingStays(c: Prune, s: State, st: Step, r: Rank)
    requires Inv(c, s) && Enabled(c, s, st) && r in Pending(Apply(c, s, st).phase)
    ensures OnRecord(c, s, r)
  {
    if st.EndFirst? { assert r in Elements(st.q); }
  }

  lemma InvStep(c: Prune, s: State, st: Step)
    requires Inv(c, s) && Enabled(c, s, st)
    ensures Inv(c, Apply(c, s, st))
  {
    var s' := Apply(c, s, st);
    OwnStays(c, s, st);
    forall r | r in s'.kept ensures OnRecord(c, s', r) { KeptStays(c, s, st, r); }
    forall r | r in Pending(s'.phase) ensures OnRecord(c, s', r) {
      PendingStays(c, s, st, r);
      RecordStays(c, s, st, r);
    }
    if s'.phase.Evicting? { assert s'.phase.rank in Pending(s'.phase); }
    assert forall r :: (s'.phase.Choosing? || s'.phase.Evicting?) && r in s'.phase.rest ==> r in Pending(s'.phase);
  }

  lemma {:induction false} InvRun(c: Prune, s: State, steps: seq<Step>)
    requires Inv(c, s) && Legal(c, s, steps)
    ensures Inv(c, Run(c, s, steps))
    decreases |steps|
  {
    if steps != [] {
      InvStep(c, s, steps[0]);
      InvRun(c, Apply(c, s, steps[0]), steps[1..]);
    }
  }

  // ---- What the second look is for ----

  /** Whatever others do between the two passes: an entry that is evicted had, under its key and at
      the second look, the use time that the first pass saw; nothing but touches came since; nobody
      holds its key; and the prune was over a hard cap and had not met its targets. */
  lemma {:induction false} EvictsOnlyUnchanged(c: Prune, s: State, steps: seq<Step>)
    requires Starts(s) && Legal(c, s, steps) && Enabled(c, Run(c, s, steps), Evict)
    ensures var t := Run(c, s, steps);
            var r, file := t.phase.rank, t.phase.file;
            && r.digest in t.looked && t.looked[r.digest].Regular? && r.digest in t.entries && file.Regular?
            && t.looked[r.digest].modified == file.modified && Touched(file, t.entries[r.digest])
            && r.digest !in t.held && c.over && !Met(t.left, c.limits)
  {
    InvRun(c, s, steps);
  }

  /** An action of somebody else on the entry of `d`. */
  predicate Meddles(st: Step, d: string) {
    (st.StoreEntry? || st.RemoveEntry? || st.Touch?) && st.d == d
  }

  predicate FirstPass(p: Phase) {
    p.Looking? || p.Judged?
  }

  /** The candidates on record that the prune may still come to. */
  ghost predicate Recorded(s: State, r: Rank) {
    if FirstPass(s.phase) then r in s.kept else r in Pending(s.phase)
  }

  /** The entry of `d` is past its first look, and its use time is none that is still on record. */
  ghost predicate Changed(s: State, d: string) {
    && IsFile(s, d) && OwnKey(s.phase) != Some(d)
    && (FirstPass(s.phase) ==> d in s.seen)
    && (forall r :: Recorded(s, r) && r.digest == d ==> r.used != s.entries[d].modified)
  }

  lemma ChangedStep(c: Prune, s: State, st: Step, d: string)
    requires Enabled(c, s, st) && Changed(s, d) && !Meddles(st, d)
    ensures var s' := Apply(c, s, st); Changed(s', d) && s'.entries[d] == s.entries[d]
  {
    if st.EndFirst? { assert forall r :: r in st.q ==> r in Elements(st.q); }
    assert forall r :: Recorded(Apply(c, s, st), r) && r.digest == d ==> Recorded(s, r);
  }

  /** A changed entry survives: one stored or touched after its first look, so that its use time is
      no longer the one on record, is in place unchanged however the prune goes on, until somebody
      else acts on it again. */
  lemma {:induction false} ChangedSurvives(c: Prune, s: State, steps: seq<Step>, d: string)
    requires Legal(c, s, steps) && Changed(s, d)
    requires forall k :: 0 <= k < |steps| ==> !Meddles(steps[k], d)
    ensures d in Run(c, s, steps).entries && Run(c, s, steps).entries[d] == s.entries[d]
    decreases |steps|
  {
    if steps != [] {
      ChangedStep(c, s, steps[0], d);
      ChangedSurvives(c, Apply(c, s, steps[0]), steps[1..], d);
    }
  }

  /** What is stored under a key after that key's first look survives the prune, unless its use time
      is the very one that the first pass saw. */
  lemma {:induction false} StoredBetweenSurvives(
      c: Prune, s: State, d: string, bytes: Bytes, at: nat, steps: seq<Step>)
    requires Inv(c, s) && Enabled(c, s, StoreEntry(d, bytes, at)) && (FirstPass(s.phase) ==> d in s.seen)
    requires d in s.looked && s.looked[d].Regular? ==> s.looked[d].modified != at
    requires Legal(c, Apply(c, s, StoreEntry(d, bytes, at)), steps)
    requires forall k :: 0 <= k < |steps| ==> !Meddles(steps[k], d)
    ensures var t := Run(c, Apply(c, s, StoreEntry(d, bytes, at)), steps);
            d in t.entries && t.entries[d] == Regular(bytes, at)
  {
    var s' := Apply(c, s, StoreEntry(d, bytes, at));
    forall r | Recorded(s', r) && r.digest == d ensures r.used != at {
      assert Recorded(s, r);
      assert OnRecord(c, s, r);
    }
    ChangedSurvives(c, s', steps, d);
  }

  /** When its turn comes, with nobody holding its key and the targets not met, an entry goes if and
      only if its use time is the one that the first pass saw, whoever wrote it. */
  lemma SecondLookDecides(c: Prune, s: State)
    requires Inv(c, s) && Enabled(c, s, SecondLook)
    requires var d := s.phase.rest[0].digest; d !in s.held && IsFile(s, d)
    ensures var d, next := s.phase.rest[0].digest, Apply(c, s, SecondLook);
            && d in s.looked && s.looked[d].Regular?
            && (if s.entries[d].modified == s.looked[d].modified
                then Enabled(c, next, Evict) && Apply(c, next, Evict).entries == s.entries - {d}
                else next.phase.Choosing? && next.entries == s.entries)
  {
    assert OnRecord(c, s, s.phase.rest[0]);
  }

  /** The first pass decides by what it saw under the key: an entry that is expired, unused or no
      regular file goes at once, whatever touched it since; every other one is put on record, as a
      candidate of its use time, and stays. */
  lemma FirstPassDecides(c: Prune, s: State)
    requires Inv(c, s) && s.phase.Judged? && IsDigest(s.phase.d)
    ensures var d, file, next := s.phase.d, s.phase.file, Apply(c, s, Judge);
            && next.phase.Looking? && d in s.entries
            && (if Evictable(EntryName(d), file, Context({}, c.now, c.limits))
                then next.entries == s.entries && next.left == s.left
                     && next.kept == s.kept + {Rank(file.modified, d, |file.bytes|)}
                else next.entries == s.entries - {d} && next.kept == s.kept
                     && next.left == if file.Regular? then Less(s.left, 1, |file.bytes|) else s.left)
  {
    var d, file := s.phase.d, s.phase.file;
    EntryNames(EntryName(d), d);
    NotBoth(EntryName(d));
    FatePlainly(EntryName(d), file, Context({}, c.now, c.limits));
  }

  lemma {:induction false} MoveFirst(c: Prune, s: State, st: Step, next: State, rest: seq<Step>)
    requires Enabled(c, s, st) && next == Apply(c, s, st) && Legal(c, next, rest)
    ensures Legal(c, s, [st] + rest) && Run(c, s, [st] + rest) == Run(c, next, rest)
  {
    assert ([st] + rest)[1..] == rest;
  }

  /** A store between the two passes, of any bytes, at the use time that the first pass saw. */
  function SameTimeStore(d: string, file: File, bytes: Bytes): seq<Step>
    requires file.Regular?
  {
    [Look(d)] + ([Judge] + ([Hold(d)] + ([StoreEntry(d, bytes, file.modified)]
    + ([Release(d)] + ([EndFirst([RankFor(d, file)])] + ([SecondLook] + ([Evict] + [])))))))
  }

  /** So the exception is real: such a store is evicted, though it was used just now. */
  lemma {:induction false} SameTimeIsEvicted(c: Prune, s: State, d: string, bytes: Bytes)
    requires Starts(s) && s.held == {} && IsDigest(d) && IsFile(s, d) && c.over && !Met(s.left, c.limits)
    requires FateOf(EntryName(d), s.entries[d], {}, c.now, c.limits).Candidate?
    ensures var steps := SameTimeStore(d, s.entries[d], bytes);
            Legal(c, s, steps) && d !in Run(c, s, steps).entries
  {
    var file := s.entries[d];
    var r := RankFor(d, file);
    var s1 := Apply(c, s, Look(d));
    var s2 := Apply(c, s1, Judge);
    var s3 := Apply(c, s2, Hold(d));
    var s4 := Apply(c, s3, StoreEntry(d, bytes, file.modified));
    var s5 := Apply(c, s4, Release(d));
    assert Elements([r]) == {r} == s5.kept;
    var s6 := Apply(c, s5, EndFirst([r]));
    var s7 := Apply(c, s6, SecondLook);
    var s8 := Apply(c, s7, Evict);
    MoveFirst(c, s7, Evict, s8, []);
    MoveFirst(c, s6, SecondLook, s7, [Evict] + []);
    MoveFirst(c, s5, EndFirst([r]), s6, [SecondLook] + ([Evict] + []));
    MoveFirst(c, s4, Release(d), s5, [EndFirst([r])] + ([SecondLook] + ([Evict] + [])));
    var rest := [Release(d)] + ([EndFirst([r])] + ([SecondLook] + ([Evict] + [])));
    MoveFirst(c, s3, StoreEntry(d, bytes, file.modified), s4, rest);
    MoveFirst(c, s2, Hold(d), s3, [StoreEntry(d, bytes, file.modified)] + rest);
    MoveFirst(c, s1, Judge, s2, [Hold(d)] + ([StoreEntry(d, bytes, file.modified)] + rest));
    MoveFirst(c, s, Look(d), s1, [Judge] + ([Hold(d)] + ([StoreEntry(d, bytes, file.modified)] + rest)));
  }
}
