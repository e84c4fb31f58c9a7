/** The session's record of delivered results and the grant computed from it. */
module SessionState {
  import opened Delivery
  import opened FileAuthority
  import opened Prelude
  import opened Ranges

  // ----- joining fragments

  /** Only nonempty pairs take part in a merge. */
  function NonEmpty(rs: seq<Interval>): seq<Interval> {
    if rs == [] then [] else (if rs[0].lo < rs[0].hi then [rs[0]] else []) + NonEmpty(rs[1..])
  }

  lemma {:induction false} NonEmptyAppend(rs: seq<Interval>, r: Interval)
    ensures NonEmpty(rs + [r]) == NonEmpty(rs) + if r.lo < r.hi then [r] else []
    decreases |rs|
  {
    if rs == [] {
      assert [] + [r] == [r];
    } else {
      assert (rs + [r])[1..] == rs[1..] + [r];
      NonEmptyAppend(rs[1..], r);
    }
  }

  function Entry(grouped: map<Key, seq<Interval>>, k: Key): seq<Interval> {
    if k in grouped then grouped[k] else []
  }

  /** The dictionary after `i` fragments: what is in it and what is still to come make the group. */
  ghost predicate Grouped(fs: seq<Fragment>, i: nat, grouped: map<Key, seq<Interval>>)
    requires i <= |fs|
  {
    && (forall k :: NonEmpty(Entry(grouped, k)) + GroupOf(fs[i..], k) == GroupOf(fs, k))
    && (forall k :: k in grouped <==> exists j :: 0 <= j < i && Usable(fs[j]) && Key(fs[j].line, fs[j].length) == k)
  }

  lemma GroupCons(fs: seq<Fragment>, i: nat, k: Key)
    requires i < |fs|
    ensures GroupOf(fs[i..], k) ==
      (if Usable(fs[i]) && Key(fs[i].line, fs[i].length) == k && Clip(fs[i]).lo < Clip(fs[i]).hi then [Clip(fs[i])] else [])
      + GroupOf(fs[i + 1..], k)
  {
  }

  lemma GroupStep(fs: seq<Fragment>, i: nat, grouped: map<Key, seq<Interval>>, k: Key)
    requires i < |fs| && NonEmpty(Entry(grouped, k)) + GroupOf(fs[i..], k) == GroupOf(fs, k)
    ensures var f := fs[i];
      var after := if Usable(f) && Key(f.line, f.length) == k then Entry(grouped, k) + [Clip(f)] else Entry(grouped, k);
      NonEmpty(after) + GroupOf(fs[i + 1..], k) == GroupOf(fs, k)
  {
    hide Covers, Shows, Proper, GroupOf, NonEmpty, Clip;
    GroupCons(fs, i, k);
    NonEmptyAppend(Entry(grouped, k), Clip(fs[i]));
  }

  lemma GroupedStep(fs: seq<Fragment>, i: nat, grouped: map<Key, seq<Interval>>, after: map<Key, seq<Interval>>)
    requires i < |fs| && Grouped(fs, i, grouped)
    requires var k := Key(fs[i].line, fs[i].length);
      after == if Usable(fs[i]) then grouped[k := Entry(grouped, k) + [Clip(fs[i])]] else grouped
    ensures Grouped(fs, i + 1, after)
  {
    hide GroupOf, NonEmpty, Covers, Shows, Proper, Clip;
    forall k
      ensures NonEmpty(Entry(after, k)) + GroupOf(fs[i + 1..], k) == GroupOf(fs, k)
    {
      GroupStep(fs, i, grouped, k);
    }
    hide Entry;
    forall k
      ensures k in after <==> exists j :: 0 <= j < i + 1 && Usable(fs[j]) && Key(fs[j].line, fs[j].length) == k
    {
      assert k in after <==> k in grouped || (Usable(fs[i]) && Key(fs[i].line, fs[i].length) == k);
    }
  }

  method GroupFragments(fs: seq<Fragment>) returns (grouped: map<Key, seq<Interval>>)
    ensures forall k :: k in grouped <==> k in KeysOf(fs)
    ensures forall k :: k in grouped ==> NonEmpty(grouped[k]) == GroupOf(fs, k)
  {
    hide Covers, Shows, Proper, Clip;
    grouped := map[];
    assert fs[0..] == fs;
    for i := 0 to |fs|
      invariant Grouped(fs, i, grouped)
    {
      hide GroupOf, NonEmpty, KeysOf, Grouped;
      ghost var before := grouped;
      var f := fs[i];
      if f.line <= 0 || f.length <= 0 || f.hi <= f.lo {
        GroupedStep(fs, i, before, grouped);
        continue;
      }
      var k := Key(f.line, f.length);
      grouped := grouped[k := Entry(grouped, k) + [Clip(f)]];
      GroupedStep(fs, i, before, grouped);
    }
    assert fs[|fs|..] == [];
  }

  lemma Regroup<T>(a: seq<T>, b: seq<T>, c: seq<T>)
    ensures (a + b) + c == a + (b + c)
  {
  }

  lemma NoKeys(fs: seq<Fragment>)
    ensures MergedFor(fs, []) == [] && CompletedFor(fs, []) == []
  {
  }

  lemma FirstKey(fs: seq<Fragment>, keys: seq<Key>, i: nat)
    requires i < |keys|
    ensures MergedFor(fs, keys[i..]) == AsFragments(keys[i], Merge(GroupOf(fs, keys[i]))) + MergedFor(fs, keys[i + 1..])
    ensures CompletedFor(fs, keys[i..]) ==
      (if Complete(fs, keys[i]) then [keys[i].line] else []) + CompletedFor(fs, keys[i + 1..])
  {
  }

  /** The joined fragments and the completed lines, group by group in sorted order. */
  method MergeLineFragments(fs: seq<Fragment>) returns (merged: seq<Fragment>, completed: seq<int>)
    ensures merged == MergedFragments(fs) && completed == CompletedLines(fs)
  {
    hide Covers, Shows, Proper, GroupOf, KeysOf, Merge, NonEmpty, AsFragments, MergedFor, CompletedFor;
    var grouped := GroupFragments(fs);
    var keys := KeysOf(fs);
    merged, completed := [], [];
    assert keys[0..] == keys;
    for i := 0 to |keys|
      invariant merged + MergedFor(fs, keys[i..]) == MergedFor(fs, keys)
      invariant completed + CompletedFor(fs, keys[i..]) == CompletedFor(fs, keys)
    {
      FirstKey(fs, keys, i);
      var k := keys[i];
      assert k in keys;
      var runs := Merge(NonEmpty(grouped[k]));
      assert runs == Merge(GroupOf(fs, k));
      Regroup(merged, AsFragments(k, runs), MergedFor(fs, keys[i + 1..]));
      merged := merged + AsFragments(k, runs);
      if runs != [] && runs[0].lo == 0 && runs[0].hi >= k.length {
        assert Complete(fs, k);
        Regroup(completed, [k.line], CompletedFor(fs, keys[i + 1..]));
        completed := completed + [k.line];
      }
    }
    assert keys[|keys|..] == [];
    NoKeys(fs);
  }

  // ----- the session

  datatype Grant = Grant(digest: string, totalLines: nat, covered: seq<Interval>, emptyFile: bool,
                         fragments: seq<Fragment>, results: set<string>)

  /** Some already joined result covers the line. */
  ghost predicate CoveredBy(leases: Leases, visible: Option<set<string>>, fileKey: string, digest: string,
                            done: set<string>, line: int) {
    exists rid :: rid in done && Selected(leases, visible, fileKey, digest, rid)
                  && LeaseCovers(leases, visible, leases[rid], line)
  }

  ghost predicate ShownBy(leases: Leases, visible: Option<set<string>>, fileKey: string, digest: string,
                          done: set<string>, k: Key, c: int) {
    exists rid :: rid in done && Selected(leases, visible, fileKey, digest, rid)
                  && Shows(leases[rid].fragments, k, c)
  }

  /** The result takes part in the grant: it is selected, or a selected one inherits through it. */
  ghost predicate Contributes(leases: Leases, visible: Option<set<string>>, fileKey: string, digest: string, r: string) {
    exists rid :: Selected(leases, visible, fileKey, digest, rid) && ContributesBy(leases, visible, rid, r)
  }

  predicate ContributesBy(leases: Leases, visible: Option<set<string>>, rid: string, r: string)
    requires rid in leases
  {
    r == rid || (ParentsHold(leases, visible, leases[rid]) && r in leases[rid].parents)
  }

  /** The largest line count of the selected results, 0 when there are none. */
  ghost predicate LongestOf(leases: Leases, visible: Option<set<string>>, fileKey: string, digest: string, total: nat) {
    && (forall rid :: Selected(leases, visible, fileKey, digest, rid) ==> leases[rid].totalLines <= total)
    && (total == 0 || exists rid :: Selected(leases, visible, fileKey, digest, rid) && leases[rid].totalLines == total)
  }

  predicate Sound(lease: Lease) {
    OneBased(lease.standalone) && OneBased(lease.inherited)
  }

  /** The ranges one selected lease brings to the grant. */
  function Brought(leases: Leases, visible: Option<set<string>>, lease: Lease): seq<Interval> {
    lease.standalone + WholeFile(lease.completeFile, lease.totalLines)
    + if ParentsHold(leases, visible, lease) then lease.inherited else []
  }

  lemma BroughtCovers(leases: Leases, visible: Option<set<string>>, lease: Lease, line: int)
    ensures Covers(Brought(leases, visible, lease), line) <==> LeaseCovers(leases, visible, lease, line)
  {
  }

  lemma BroughtOneBased(leases: Leases, visible: Option<set<string>>, lease: Lease)
    requires Sound(lease)
    ensures OneBased(Brought(leases, visible, lease))
  {
  }

  lemma ApplySound(prev: Option<Lease>, m: Manifest)
    ensures Sound(Apply(prev, m))
  {
    var more := Extends(prev, m);
    MergeLinesFacts(EarlierRanges(prev, m) + WholeRanges(m.spans)
                    + LineRanges(CompletedLines(AllFragments(prev, m))) + WholeFile(m.completeFile, m.totalLines));
    MergeLinesFacts(m.inherited + if more then prev.value.inherited else []);
    hide MergeLines, MergedFragments, OneBased, WholeRanges, LineRanges, CompletedLines, WholeFile, EarlierRanges;
  }

  // ----- the file versions the session believes current

  /** What was last known of a file. `mutation`: by an edit or a write, not by a read. */
  datatype Snapshot = Snapshot(digest: string, totalLines: nat, complete: bool, created: nat, expires: nat, mutation: bool)

  /** A read of another version does not speak against what an edit left behind. */
  predicate Outdated(known: map<string, Snapshot>, m: Manifest) {
    && m.fileKey in known && known[m.fileKey].mutation && known[m.fileKey].digest != m.digest
    && m.operation == "read"
  }

  /** Every line of the file was shown. */
  predicate ShownWhole(m: Manifest, lease: Lease) {
    m.emptyFile || m.completeFile || (m.totalLines > 0 && HoldsRun(lease.standalone, 1, m.totalLines))
  }

  function Seen(m: Manifest, lease: Lease, turn: nat, retention: nat): Snapshot {
    Snapshot(m.digest, m.totalLines, ShownWhole(m, lease), turn, turn + retention, m.operation in {"edit", "write"})
  }

  // ----- how long a snapshot is remembered

  /** The turn, how many turns a snapshot is kept from now on, the inputs seen and the snapshots. */
  datatype Memory = Memory(turn: nat, retention: nat, inputs: set<string>, snapshots: map<string, Snapshot>)

  datatype Event = Input(input: string, keep: int) | Delivered(manifest: Manifest, lease: Lease)

  /** The snapshots that outlive the turn. */
  function Retained(snapshots: map<string, Snapshot>, turn: nat): map<string, Snapshot> {
    map key | key in snapshots && turn < snapshots[key].expires :: snapshots[key]
  }

  function AfterEvent(s: Memory, e: Event): Memory {
    match e
    case Input(input, keep) =>
      var turn := if input in s.inputs then s.turn else s.turn + 1;
      Memory(turn, Max(1, keep), s.inputs + {input}, Retained(s.snapshots, turn))
    case Delivered(m, lease) =>
      if Outdated(s.snapshots, m) then s
      else s.(snapshots := s.snapshots[m.fileKey := Seen(m, lease, s.turn, s.retention)])
  }

  /** What is said of a file when asked. */
  function Recalled(s: Memory, fileKey: string): Option<Snapshot> {
    if fileKey in s.snapshots && s.turn < s.snapshots[fileKey].expires then Some(s.snapshots[fileKey]) else None
  }

  ghost predicate Remembers(states: seq<Memory>, events: seq<Event>) {
    |states| == |events| + 1 && forall i :: 0 <= i < |events| ==> states[i + 1] == AfterEvent(states[i], events[i])
  }

  /** The delivery speaks about the file: it is not a read of a version that an edit has replaced. */
  predicate Speaks(s: Memory, e: Event, fileKey: string) {
    && e.Delivered? && e.manifest.fileKey == fileKey
    && (|| e.manifest.operation != "read" || fileKey !in s.snapshots
        || !s.snapshots[fileKey].mutation || s.snapshots[fileKey].digest == e.manifest.digest)
  }

  lemma {:induction false} RememberedSince(states: seq<Memory>, events: seq<Event>, i: nat, j: nat, fileKey: string, seen: Snapshot)
    requires Remembers(states, events) && i <= j < |states|
    requires fileKey in states[i].snapshots && states[i].snapshots[fileKey] == seen
    requires forall n :: i <= n < j ==> !Speaks(states[n], events[n], fileKey)
    ensures states[i].turn <= states[j].turn
    ensures fileKey in states[j].snapshots ==> states[j].snapshots[fileKey] == seen
    ensures states[j].turn < seen.expires ==> fileKey in states[j].snapshots
    decreases j
  {
    if i < j {
      RememberedSince(states, events, i, j - 1, fileKey, seen);
      assert states[j] == AfterEvent(states[j - 1], events[j - 1]);
      assert !Speaks(states[j - 1], events[j - 1], fileKey);
      hide Seen, Remembers, Outdated;
    }
  }

  /** What a delivery said of a file is recalled during as many turns as were to be kept when it came, that turn
      included, and no longer, unless something newer is said of the file. */
  lemma RecalledExactly(states: seq<Memory>, events: seq<Event>, i: nat, j: nat, fileKey: string)
    requires Remembers(states, events) && i < j < |states| && Speaks(states[i], events[i], fileKey)
    requires forall n :: i < n < j ==> !Speaks(states[n], events[n], fileKey)
    ensures Recalled(states[j], fileKey).Some? <==> states[j].turn < states[i].turn + states[i].retention
    ensures Recalled(states[j], fileKey).Some? ==>
      var seen, m := Recalled(states[j], fileKey).value, events[i].manifest;
      && seen.digest == m.digest && seen.totalLines == m.totalLines && seen.created == states[i].turn
      && (seen.mutation <==> m.operation == "edit" || m.operation == "write")
      && (seen.complete <==> ShownWhole(m, events[i].lease))
  {
    assert states[i + 1] == AfterEvent(states[i], events[i]);
    var seen := states[i + 1].snapshots[fileKey];
    hide Remembers, ShownWhole, Speaks;
    RememberedSince(states, events, i + 1, j, fileKey, seen);
  }

  /** A delivery counts as complete exactly when each single line of the file was delivered. */
  lemma ShownWholeIff(prev: Option<Lease>, m: Manifest)
    ensures ShownWhole(m, Apply(prev, m)) <==>
      || m.emptyFile || m.completeFile
      || (m.totalLines > 0 && forall x :: 1 <= x <= m.totalLines ==> Covers(Apply(prev, m).standalone, x))
  {
    MergeLinesFacts(EarlierRanges(prev, m) + WholeRanges(m.spans)
                    + LineRanges(CompletedLines(AllFragments(prev, m))) + WholeFile(m.completeFile, m.totalLines));
    assert Canonical(Apply(prev, m).standalone);
    hide Apply, Covers, HoldsRun;
    if m.totalLines > 0 {
      HoldsRunIsEveryLine(Apply(prev, m).standalone, 1, m.totalLines);
    }
  }

  // ----- the most recent result

  predicate Precedes(a: string, b: string) {
    b != "" && (a == "" || a[0] < b[0] || (a[0] == b[0] && Precedes(a[1..], b[1..])))
  }

  /** The order of a dictionary: the first difference decides, and a beginning comes before what it begins. */
  lemma {:induction false} PrecedesIff(a: string, b: string)
    ensures Precedes(a, b) <==>
      || (|a| < |b| && a == b[..|a|])
      || exists k: nat :: k < |a| && k < |b| && a[..k] == b[..k] && a[k] < b[k]
    decreases |a|
  {
    if a != "" && b != "" {
      var c, d := a[1..], b[1..];
      PrecedesIff(c, d);
      assert a == [a[0]] + c && b == [b[0]] + d;
      if a[0] == b[0] {
        assert |a| < |b| ==> b[..|a|] == [b[0]] + d[..|c|];
        forall k: nat | k < |c| && k < |d|
          ensures a[..k + 1] == [a[0]] + c[..k] && b[..k + 1] == [b[0]] + d[..k]
        {
        }
        forall k: nat | 0 < k < |a| && k < |b| && a[..k] == b[..k]
          ensures c[..k - 1] == d[..k - 1] && c[k - 1] == a[k] && d[k - 1] == b[k]
        {
          assert a[..k][1..] == c[..k - 1] && b[..k][1..] == d[..k - 1];
        }
      } else {
        forall k: nat | 0 < k < |a| && k < |b|
          ensures a[..k] != b[..k]
        {
          assert a[..k][0] != b[..k][0];
        }
        assert |a| < |b| ==> b[..|a|][0] != a[0];
        assert a[..0] == b[..0];
      }
    }
  }

  lemma {:induction false} PrecedesTotal(a: string, b: string)
    ensures a == b || Precedes(a, b) || Precedes(b, a)
    decreases |a|
  {
    if a != "" && b != "" && a[0] == b[0] {
      PrecedesTotal(a[1..], b[1..]);
      assert a == [a[0]] + a[1..] && b == [b[0]] + b[1..];
    }
  }

  lemma {:induction false} PrecedesTransitive(a: string, b: string, c: string)
    requires Precedes(a, b) && Precedes(b, c)
    ensures Precedes(a, c)
    decreases |a|
  {
    if a != "" && a[0] == b[0] == c[0] {
      PrecedesTransitive(a[1..], b[1..], c[1..]);
    }
  }

  /** By the user turn of its last delivery, then by its id. */
  predicate Sooner(turns: map<string, nat>, a: string, b: string)
    requires a in turns && b in turns
  {
    turns[a] < turns[b] || (turns[a] == turns[b] && Precedes(a, b))
  }

  /** A visible result of the file. */
  predicate Candidate(leases: Leases, visible: Option<set<string>>, fileKey: string, rid: string) {
    rid in leases && Visible(visible, rid) && leases[rid].fileKey == fileKey
  }

  /** The candidate that no other candidate comes after. */
  ghost predicate Newest(leases: Leases, turns: map<string, nat>, visible: Option<set<string>>, fileKey: string, rid: string)
    requires leases.Keys == turns.Keys
  {
    && Candidate(leases, visible, fileKey, rid)
    && forall r :: Candidate(leases, visible, fileKey, r) && r != rid ==> Sooner(turns, r, rid)
  }

  /** It was delivered in no earlier turn than any other, and the last id of that turn in dictionary order is taken. */
  lemma NewestIsLatest(leases: Leases, turns: map<string, nat>, visible: Option<set<string>>, fileKey: string, rid: string,
                       r: string)
    requires leases.Keys == turns.Keys && Newest(leases, turns, visible, fileKey, rid)
    requires r in leases && Visible(visible, r) && leases[r].fileKey == fileKey
    ensures turns[r] <= turns[rid]
    ensures turns[r] == turns[rid] && r != rid ==> Precedes(r, rid)
  {
    assert Candidate(leases, visible, fileKey, r);
  }

  method FindNewest(leases: Leases, turns: map<string, nat>, visible: Option<set<string>>, fileKey: string)
    returns (newest: Option<string>)
    requires leases.Keys == turns.Keys
    ensures newest.None? ==> forall r :: !Candidate(leases, visible, fileKey, r)
    ensures newest.Some? ==> newest.value in leases && Newest(leases, turns, visible, fileKey, newest.value)
  {
    newest := None;
    var todo := leases.Keys;
    while todo != {}
      invariant todo <= leases.Keys
      invariant newest.None? ==> forall r :: Candidate(leases, visible, fileKey, r) ==> r in todo
      invariant newest.Some? ==> Candidate(leases, visible, fileKey, newest.value) && newest.value !in todo
      invariant newest.Some? ==> forall r ::
        Candidate(leases, visible, fileKey, r) && r !in todo && r != newest.value ==> Sooner(turns, r, newest.value)
      decreases |todo|
    {
      hide Precedes;
      var rid :| rid in todo;
      if Candidate(leases, visible, fileKey, rid) {
        if newest.None? {
          newest := Some(rid);
        } else if Sooner(turns, newest.value, rid) {
          forall r | r in turns && Sooner(turns, r, newest.value)
            ensures Sooner(turns, r, rid)
          {
            if Precedes(r, newest.value) && Precedes(newest.value, rid) {
              PrecedesTransitive(r, newest.value, rid);
            }
          }
          newest := Some(rid);
        } else {
          PrecedesTotal(newest.value, rid);
        }
      }
      todo := todo - {rid};
    }
  }

  class Session {
    var results: Leases
    var turns: map<string, nat>
    var snapshots: map<string, Snapshot>
    var inputs: set<string>
    var turn: nat
    var retention: nat
    var retired: bool

    /** Leases are sound and dated, and no snapshot is from the future. */
    ghost predicate Valid()
      reads this
    {
      && turns.Keys == results.Keys && retention >= 1
      && (forall rid :: rid in results ==> Sound(results[rid]) && results[rid].digest != "" && turns[rid] <= turn)
      && (forall key :: key in snapshots ==> snapshots[key].created <= turn)
    }

    /** What the session says of files. */
    function Remembered(): Memory
      reads this
    {
      Memory(turn, retention, inputs, snapshots)
    }

    constructor (keep: nat)
      requires keep >= 1
      ensures Valid() && results == map[] && snapshots == map[] && turn == 0 && retention == keep && !retired
    {
      results, turns, snapshots, inputs, turn, retention, retired := map[], map[], map[], {}, 0, keep, false;
    }

    /** A new input is a new turn, a repeated one is not; what outlived its retention is forgotten. */
    method BeginInput(input: string, keep: int) returns (accepted: bool)
      requires Valid()
      modifies this
      ensures Valid() && retired == old(retired) && results == old(results) && turns == old(turns)
      ensures accepted <==> input != "" && !retired
      ensures !accepted ==> turn == old(turn) && snapshots == old(snapshots) && inputs == old(inputs)
      ensures accepted ==>
        && turn == old(turn) + (if input in old(inputs) then 0 else 1) && inputs == old(inputs) + {input}
        && (forall key :: key in snapshots <==> key in old(snapshots) && turn < old(snapshots)[key].expires)
        && (forall key :: key in snapshots ==> snapshots[key] == old(snapshots)[key])
        && Remembered() == AfterEvent(old(Remembered()), Input(input, keep))
    {
      hide Sound, Outdated, Seen;
      accepted := input != "" && !retired;
      if accepted {
        retention := Max(1, keep);
        if input !in inputs {
          turn := turn + 1;
          inputs := inputs + {input};
        }
        snapshots := Retained(snapshots, turn);
      }
    }

    /** A retired session refuses; a manifest that names no file version is ignored. A read of a version that an
        edit has replaced adds its lease and leaves the file's snapshot alone.
     */
    method RecordDelivery(rid: string, m: Manifest) returns (accepted: bool)
      requires Valid()
      modifies this`results, this`turns, this`snapshots
      ensures Valid() && accepted == !retired
      ensures !accepted || m.fileKey == "" || m.digest == "" ==>
        results == old(results) && turns == old(turns) && snapshots == old(snapshots)
      ensures accepted && m.fileKey != "" && m.digest != "" ==>
        var lease := Apply(if rid in old(results) then Some(old(results)[rid]) else None, m);
        && results == old(results)[rid := lease] && turns == old(turns)[rid := turn]
        && Remembered() == AfterEvent(old(Remembered()), Delivered(m, lease))
    {
      hide Sound, Apply, ShownWhole, Outdated, Retained, Extends;
      accepted := !retired;
      if !accepted || m.fileKey == "" || m.digest == "" {
        return;
      }
      var prev := if rid in results then Some(results[rid]) else None;
      ApplySound(prev, m);
      ApplyVersion(prev, m);
      var lease := Apply(prev, m);
      results := results[rid := lease];
      turns := turns[rid := turn];
      if !Outdated(snapshots, m) {
        snapshots := snapshots[m.fileKey := Seen(m, lease, turn, retention)];
      }
    }

    /** The file's snapshot while it is retained and, if a version is named, of that version. */
    method FileSnapshot(fileKey: string, digest: string) returns (known: Option<Snapshot>)
      requires Valid()
      ensures known.Some? <==>
        && !retired && fileKey in snapshots && turn < snapshots[fileKey].expires
        && (digest == "" || snapshots[fileKey].digest == digest)
      ensures known.Some? ==> known == Recalled(Remembered(), fileKey) && known.value.created <= turn < known.value.expires
    {
      if retired || fileKey !in snapshots || turn >= snapshots[fileKey].expires
         || (digest != "" && snapshots[fileKey].digest != digest) {
        return None;
      }
      return Some(snapshots[fileKey]);
    }

    /** Join the visible leases for one file version: the one named, or that of the most recent result. */
    method FileGrant(fileKey: string, digest: string, visible: Option<set<string>>) returns (grant: Option<Grant>)
      requires Valid()
      ensures grant.Some? ==> !retired && GrantIs(results, visible, fileKey, grant.value)
      ensures grant.Some? && digest != "" ==> grant.value.digest == digest
      ensures grant.Some? && digest == "" ==> exists rid ::
        Newest(results, turns, visible, fileKey, rid) && grant.value.digest == results[rid].digest
      ensures !retired && grant.None? ==>
        CoversNothing(results, visible, fileKey, if digest != "" then digest else NewestDigest(fileKey, visible))
    {
      hide GrantIs, CoversNothing, Newest, Sound;
      if retired {
        return None;
      }
      var selected := digest;
      if digest == "" {
        var newest := FindNewest(results, turns, visible, fileKey);
        if newest.None? {
          NothingSelected(results, visible, fileKey, "");
          assert NewestDigest(fileKey, visible) == "" by {
            NoNewest(results, turns, visible, fileKey);
          }
          return None;
        }
        selected := results[newest.value].digest;
        OneNewest(results, turns, visible, fileKey, newest.value);
      }
      grant := GrantFor(results, fileKey, selected, visible);
    }

    /** The version of the most recent visible result of the file, or none. */
    ghost function NewestDigest(fileKey: string, visible: Option<set<string>>): string
      requires turns.Keys == results.Keys
      reads this
    {
      LastDigest(results, turns, visible, fileKey)
    }
  }

  ghost function LastDigest(leases: Leases, turns: map<string, nat>, visible: Option<set<string>>, fileKey: string): string
    requires leases.Keys == turns.Keys
  {
    if rid :| Newest(leases, turns, visible, fileKey, rid) then leases[rid].digest else ""
  }

  lemma NoNewest(leases: Leases, turns: map<string, nat>, visible: Option<set<string>>, fileKey: string)
    requires leases.Keys == turns.Keys && forall r :: !Candidate(leases, visible, fileKey, r)
    ensures LastDigest(leases, turns, visible, fileKey) == ""
  {
  }

  lemma {:induction false} PrecedesIrreflexive(a: string)
    ensures !Precedes(a, a)
    decreases |a|
  {
    if a != "" {
      PrecedesIrreflexive(a[1..]);
    }
  }

  /** There is only one most recent result. */
  lemma OneNewest(leases: Leases, turns: map<string, nat>, visible: Option<set<string>>, fileKey: string, rid: string)
    requires leases.Keys == turns.Keys && Newest(leases, turns, visible, fileKey, rid)
    ensures LastDigest(leases, turns, visible, fileKey) == leases[rid].digest
  {
    forall r | Newest(leases, turns, visible, fileKey, r)
      ensures r == rid
    {
      if r != rid {
        assert Sooner(turns, r, rid) && Sooner(turns, rid, r);
        PrecedesTransitive(r, rid, r);
        PrecedesIrreflexive(r);
      }
    }
  }

  lemma NothingSelected(leases: Leases, visible: Option<set<string>>, fileKey: string, digest: string)
    requires forall r :: !Candidate(leases, visible, fileKey, r)
    ensures CoversNothing(leases, visible, fileKey, digest)
  {
    forall rid
      ensures !Selected(leases, visible, fileKey, digest, rid)
    {
      assert !Candidate(leases, visible, fileKey, rid);
    }
    hide Selected;
    forall line, n
      ensures !GrantWholly(leases, visible, fileKey, digest, Key(line, n))
    {
      assert !GrantShows(leases, visible, fileKey, digest, Key(line, n), 0);
    }
  }

  ghost predicate CoversNothing(leases: Leases, visible: Option<set<string>>, fileKey: string, digest: string) {
    forall line :: !GrantCovers(leases, visible, fileKey, digest, line)
  }

  /** What a grant says of the leases it was made from. */
  ghost predicate GrantIs(leases: Leases, visible: Option<set<string>>, fileKey: string, grant: Grant) {
    && Canonical(grant.covered) && OneBased(grant.covered)
    && (forall line :: Covers(grant.covered, line) <==> GrantCovers(leases, visible, fileKey, grant.digest, line))
    && (forall k, c :: Shows(grant.fragments, k, c) <==> GrantShows(leases, visible, fileKey, grant.digest, k, c))
    && (grant.emptyFile <==>
          exists rid :: Selected(leases, visible, fileKey, grant.digest, rid) && leases[rid].emptyFile)
    && (forall r :: r in grant.results <==> Contributes(leases, visible, fileKey, grant.digest, r))
    && LongestOf(leases, visible, fileKey, grant.digest, grant.totalLines)
  }

  /** Join the visible leases for one exact file version. */
  method GrantFor(leases: Leases, fileKey: string, digest: string, visible: Option<set<string>>)
    returns (grant: Option<Grant>)
    requires forall rid :: rid in leases ==> Sound(leases[rid])
    ensures grant.Some? ==> grant.value.digest == digest && GrantIs(leases, visible, fileKey, grant.value)
    ensures grant.None? ==> CoversNothing(leases, visible, fileKey, digest)
  {
    var ranges, fragments, emptyFile := JoinLeases(leases, fileKey, digest, visible);
    var used, total := Contributors(leases, fileKey, digest, visible);
    var merged, completed := MergeLineFragments(fragments);
    GrantMeaning(leases, fileKey, digest, visible, ranges, fragments);
    forall k, c
      ensures Shows(merged, k, c) <==> GrantShows(leases, visible, fileKey, digest, k, c)
    {
      JoinedShows(leases, fileKey, digest, visible, fragments, k, c);
    }
    hide *;
    var covered := MergeRanges(ranges + LineRanges(completed));
    if covered == [] && !emptyFile && fragments == [] {
      NothingCovered(leases, visible, fileKey, digest);
      return None;
    }
    grant := Some(Grant(digest, total, covered, emptyFile, merged, used));
    GrantMade(leases, visible, fileKey, grant.value);
  }

  lemma NothingCovered(leases: Leases, visible: Option<set<string>>, fileKey: string, digest: string)
    requires forall line :: Covers([], line) <==> GrantCovers(leases, visible, fileKey, digest, line)
    ensures CoversNothing(leases, visible, fileKey, digest)
  {
    hide GrantCovers;
    forall line
      ensures !GrantCovers(leases, visible, fileKey, digest, line)
    {
      CoversNone(line);
    }
  }

  lemma GrantMade(leases: Leases, visible: Option<set<string>>, fileKey: string, grant: Grant)
    requires Canonical(grant.covered) && OneBased(grant.covered)
    requires forall line :: Covers(grant.covered, line) <==> GrantCovers(leases, visible, fileKey, grant.digest, line)
    requires forall k, c :: Shows(grant.fragments, k, c) <==> GrantShows(leases, visible, fileKey, grant.digest, k, c)
    requires grant.emptyFile <==>
      exists rid :: Selected(leases, visible, fileKey, grant.digest, rid) && leases[rid].emptyFile
    requires forall r :: r in grant.results <==> Contributes(leases, visible, fileKey, grant.digest, r)
    requires LongestOf(leases, visible, fileKey, grant.digest, grant.totalLines)
    ensures GrantIs(leases, visible, fileKey, grant)
  {
  }

  lemma CoveredByStep(leases: Leases, fileKey: string, digest: string, visible: Option<set<string>>,
                      done: set<string>, rid: string, line: int)
    ensures CoveredBy(leases, visible, fileKey, digest, done + {rid}, line) <==>
      || CoveredBy(leases, visible, fileKey, digest, done, line)
      || (Selected(leases, visible, fileKey, digest, rid) && LeaseCovers(leases, visible, leases[rid], line))
  {
  }

  lemma ShownByStep(leases: Leases, fileKey: string, digest: string, visible: Option<set<string>>,
                    done: set<string>, rid: string, k: Key, c: int)
    ensures ShownBy(leases, visible, fileKey, digest, done + {rid}, k, c) <==>
      || ShownBy(leases, visible, fileKey, digest, done, k, c)
      || (Selected(leases, visible, fileKey, digest, rid) && Shows(leases[rid].fragments, k, c))
  {
  }

  /** Joining one more selected lease. */
  lemma JoinStep(leases: Leases, fileKey: string, digest: string, visible: Option<set<string>>,
                 done: set<string>, rid: string, ranges: seq<Interval>, fragments: seq<Fragment>)
    requires Selected(leases, visible, fileKey, digest, rid)
    requires forall line :: Covers(ranges, line) <==> CoveredBy(leases, visible, fileKey, digest, done, line)
    requires forall k, c :: Shows(fragments, k, c) <==> ShownBy(leases, visible, fileKey, digest, done, k, c)
    ensures forall line :: Covers(ranges + Brought(leases, visible, leases[rid]), line) <==>
      CoveredBy(leases, visible, fileKey, digest, done + {rid}, line)
    ensures forall k, c :: Shows(fragments + leases[rid].fragments, k, c) <==>
      ShownBy(leases, visible, fileKey, digest, done + {rid}, k, c)
  {
    var brought := Brought(leases, visible, leases[rid]);
    hide Covers, CoveredBy, Shows, ShownBy, Brought, LeaseCovers;
    forall line
      ensures Covers(ranges + brought, line) <==> CoveredBy(leases, visible, fileKey, digest, done + {rid}, line)
    {
      CoversConcat(ranges, brought, line);
      BroughtCovers(leases, visible, leases[rid], line);
      CoveredByStep(leases, fileKey, digest, visible, done, rid, line);
    }
    forall k, c
      ensures Shows(fragments + leases[rid].fragments, k, c) <==>
        ShownBy(leases, visible, fileKey, digest, done + {rid}, k, c)
    {
      ShowsConcat(fragments, leases[rid].fragments, k, c);
      ShownByStep(leases, fileKey, digest, visible, done, rid, k, c);
    }
  }

  lemma SkipStep(leases: Leases, fileKey: string, digest: string, visible: Option<set<string>>,
                 done: set<string>, rid: string)
    requires !Selected(leases, visible, fileKey, digest, rid)
    ensures forall line :: CoveredBy(leases, visible, fileKey, digest, done + {rid}, line) <==>
      CoveredBy(leases, visible, fileKey, digest, done, line)
    ensures forall k, c :: ShownBy(leases, visible, fileKey, digest, done + {rid}, k, c) <==>
      ShownBy(leases, visible, fileKey, digest, done, k, c)
  {
  }

  /** What the joined fragments show is what the selected results show. */
  lemma JoinedShows(leases: Leases, fileKey: string, digest: string, visible: Option<set<string>>,
                    fragments: seq<Fragment>, k: Key, c: int)
    requires forall k, c :: Shows(fragments, k, c) <==> ShownBy(leases, visible, fileKey, digest, leases.Keys, k, c)
    ensures Shows(fragments, k, c) <==> GrantShows(leases, visible, fileKey, digest, k, c)
    ensures Shows(MergedFragments(fragments), k, c) <==> GrantShows(leases, visible, fileKey, digest, k, c)
  {
    hide Shows;
    assert Shows(fragments, k, c) <==> GrantShows(leases, visible, fileKey, digest, k, c);
    MergedShowsSame(fragments, k, c);
  }

  lemma CompletedIsWholly(leases: Leases, fileKey: string, digest: string, visible: Option<set<string>>,
                          fragments: seq<Fragment>, line: int)
    requires forall k, c :: Shows(fragments, k, c) <==> ShownBy(leases, visible, fileKey, digest, leases.Keys, k, c)
    ensures line in CompletedLines(fragments) <==>
      exists n :: GrantWholly(leases, visible, fileKey, digest, Key(line, n))
  {
    CompletedIff(fragments, line);
    hide Shows, GrantShows, ShownBy, CompletedLines;
    forall k
      ensures WhollyShown(fragments, k) <==> GrantWholly(leases, visible, fileKey, digest, k)
    {
      forall c
        ensures Shows(fragments, k, c) <==> GrantShows(leases, visible, fileKey, digest, k, c)
      {
        JoinedShows(leases, fileKey, digest, visible, fragments, k, c);
      }
    }
  }

  /** The merged ranges cover exactly the lines the leases jointly allow. */
  lemma GrantMeaning(leases: Leases, fileKey: string, digest: string, visible: Option<set<string>>,
                     ranges: seq<Interval>, fragments: seq<Fragment>)
    requires OneBased(ranges)
    requires forall line :: Covers(ranges, line) <==> CoveredBy(leases, visible, fileKey, digest, leases.Keys, line)
    requires forall k, c :: Shows(fragments, k, c) <==> ShownBy(leases, visible, fileKey, digest, leases.Keys, k, c)
    ensures var merged := MergeLines(ranges + LineRanges(CompletedLines(fragments)));
      && Canonical(merged) && OneBased(merged)
      && forall line :: Covers(merged, line) <==> GrantCovers(leases, visible, fileKey, digest, line)
  {
    var lines := LineRanges(CompletedLines(fragments));
    CompletedOneBased(fragments);
    assert OneBased(ranges + lines);
    MergeLinesFacts(ranges + lines);
    hide Covers, Shows, MergeLines, LineRanges, CompletedLines, LeaseCovers, OneBased, Canonical, GrantWholly, ShownBy;
    forall line
      ensures Covers(MergeLines(ranges + lines), line) <==> GrantCovers(leases, visible, fileKey, digest, line)
    {
      CoversConcat(ranges, lines, line);
      LineRangesCover(CompletedLines(fragments), line);
      CompletedIsWholly(leases, fileKey, digest, visible, fragments, line);
    }
  }

  /** The loop over the selected leases. */
  method JoinLeases(leases: Leases, fileKey: string, digest: string, visible: Option<set<string>>)
    returns (ranges: seq<Interval>, fragments: seq<Fragment>, emptyFile: bool)
    requires forall rid :: rid in leases ==> Sound(leases[rid])
    ensures OneBased(ranges)
    ensures forall line :: Covers(ranges, line) <==> CoveredBy(leases, visible, fileKey, digest, leases.Keys, line)
    ensures forall k, c :: Shows(fragments, k, c) <==> ShownBy(leases, visible, fileKey, digest, leases.Keys, k, c)
    ensures emptyFile <==> exists rid :: Selected(leases, visible, fileKey, digest, rid) && leases[rid].emptyFile
  {
    hide LeaseCovers, Brought, ParentsHold, Sound, Joined, Covers, Shows, OneBased;
    ranges, fragments, emptyFile := [], [], false;
    var todo := leases.Keys;
    ghost var done: set<string> := {};
    NothingJoined(leases, fileKey, digest, visible);
    while todo != {}
      invariant done + todo == leases.Keys && done !! todo
      invariant Joined(leases, fileKey, digest, visible, done, ranges, fragments, emptyFile)
      decreases |todo|
    {
      var rid :| rid in todo;
      todo := todo - {rid};
      if Selected(leases, visible, fileKey, digest, rid) {
        JoinedMore(leases, fileKey, digest, visible, done, rid, ranges, fragments, emptyFile);
        ranges := ranges + Brought(leases, visible, leases[rid]);
        fragments := fragments + leases[rid].fragments;
        emptyFile := emptyFile || leases[rid].emptyFile;
      } else {
        JoinedSame(leases, fileKey, digest, visible, done, rid, ranges, fragments, emptyFile);
      }
      done := done + {rid};
    }
    assert done == leases.Keys;
    AllJoined(leases, fileKey, digest, visible, ranges, fragments, emptyFile);
  }

  /** What was joined is what the leases in `done` allow, show and say. */
  ghost predicate Joined(leases: Leases, fileKey: string, digest: string, visible: Option<set<string>>, done: set<string>,
                         ranges: seq<Interval>, fragments: seq<Fragment>, emptyFile: bool) {
    && OneBased(ranges)
    && (forall line :: Covers(ranges, line) <==> CoveredBy(leases, visible, fileKey, digest, done, line))
    && (forall k, c :: Shows(fragments, k, c) <==> ShownBy(leases, visible, fileKey, digest, done, k, c))
    && (emptyFile <==>
          exists rid :: rid in done && Selected(leases, visible, fileKey, digest, rid) && leases[rid].emptyFile)
  }

  lemma NothingJoined(leases: Leases, fileKey: string, digest: string, visible: Option<set<string>>)
    ensures Joined(leases, fileKey, digest, visible, {}, [], [], false)
  {
    hide Selected, LeaseCovers;
  }

  lemma JoinedMore(leases: Leases, fileKey: string, digest: string, visible: Option<set<string>>, done: set<string>,
                   rid: string, ranges: seq<Interval>, fragments: seq<Fragment>, emptyFile: bool)
    requires Joined(leases, fileKey, digest, visible, done, ranges, fragments, emptyFile)
    requires Selected(leases, visible, fileKey, digest, rid) && Sound(leases[rid])
    ensures Joined(leases, fileKey, digest, visible, done + {rid}, ranges + Brought(leases, visible, leases[rid]),
                   fragments + leases[rid].fragments, emptyFile || leases[rid].emptyFile)
  {
    assert OneBased(ranges + Brought(leases, visible, leases[rid])) by {
      BroughtOneBased(leases, visible, leases[rid]);
      hide Brought;
    }
    hide Covers, Shows, CoveredBy, ShownBy, OneBased, Brought, Sound;
    JoinStep(leases, fileKey, digest, visible, done, rid, ranges, fragments);
  }

  lemma JoinedSame(leases: Leases, fileKey: string, digest: string, visible: Option<set<string>>, done: set<string>,
                   rid: string, ranges: seq<Interval>, fragments: seq<Fragment>, emptyFile: bool)
    requires Joined(leases, fileKey, digest, visible, done, ranges, fragments, emptyFile)
    requires !Selected(leases, visible, fileKey, digest, rid)
    ensures Joined(leases, fileKey, digest, visible, done + {rid}, ranges, fragments, emptyFile)
  {
    hide Covers, Shows, CoveredBy, ShownBy, OneBased, Selected;
    SkipStep(leases, fileKey, digest, visible, done, rid);
  }

  lemma AllJoined(leases: Leases, fileKey: string, digest: string, visible: Option<set<string>>,
                  ranges: seq<Interval>, fragments: seq<Fragment>, emptyFile: bool)
    requires Joined(leases, fileKey, digest, visible, leases.Keys, ranges, fragments, emptyFile)
    ensures OneBased(ranges)
    ensures forall line :: Covers(ranges, line) <==> CoveredBy(leases, visible, fileKey, digest, leases.Keys, line)
    ensures forall k, c :: Shows(fragments, k, c) <==> ShownBy(leases, visible, fileKey, digest, leases.Keys, k, c)
    ensures emptyFile <==> exists rid :: Selected(leases, visible, fileKey, digest, rid) && leases[rid].emptyFile
  {
    hide Covers, Shows, CoveredBy, ShownBy, OneBased;
  }

  /** Which results the grant rests on, and how long the file is according to them. */
  method Contributors(leases: Leases, fileKey: string, digest: string, visible: Option<set<string>>)
    returns (used: set<string>, total: nat)
    ensures forall r :: r in used <==> Contributes(leases, visible, fileKey, digest, r)
    ensures LongestOf(leases, visible, fileKey, digest, total)
  {
    used, total := {}, 0;
    var todo := leases.Keys;
    while todo != {}
      invariant todo <= leases.Keys
      invariant forall r :: r in used <==>
        exists rid :: rid !in todo && Selected(leases, visible, fileKey, digest, rid)
                      && ContributesBy(leases, visible, rid, r)
      invariant forall rid :: rid !in todo && Selected(leases, visible, fileKey, digest, rid) ==>
        leases[rid].totalLines <= total
      invariant total == 0 ||
        exists rid :: Selected(leases, visible, fileKey, digest, rid) && leases[rid].totalLines == total
      decreases |todo|
    {
      hide ParentsHold;
      var rid :| rid in todo;
      ghost var before := used;
      if Selected(leases, visible, fileKey, digest, rid) {
        used := used + {rid} + if ParentsHold(leases, visible, leases[rid]) then leases[rid].parents else {};
        total := if leases[rid].totalLines > total then leases[rid].totalLines else total;
        assert forall r :: r in used <==> r in before || ContributesBy(leases, visible, rid, r);
      }
      todo := todo - {rid};
    }
  }
}
