/** The private payload stage of an attempt: entry files written or verified one after another, then
  a marker that seals them. */
module PayloadStages {
  import opened Tree
  import opened ByteCodec

  datatype Expected = Expected(id: nat, path: string, size: nat, digest: Bytes)

  /** A package entry as the replay supplies it. */
  datatype PackageEntry = PackageEntry(id: nat, regular: bool, path: string, size: nat, digest: Option<Bytes>)

  predicate Cites(e: PackageEntry, x: Expected) {
    e.id == x.id && e.regular && e.path == x.path && e.size == x.size && e.digest == Some(x.digest)
  }

  datatype File = Pending(id: nat) | Entry(id: nat) | SealedPending | Sealed | Binding | Lock

  /** The stage directory, once it exists. */
  type Disc = Option<map<File, Bytes>>

  datatype Plan = Plan(hash: Bytes -> Bytes, entries: seq<Expected>, binding: Bytes)

  /** Expected entries are sorted by identifier. */
  predicate Sorted(xs: seq<Expected>) {
    forall i, j :: 0 <= i < j < |xs| ==> xs[i].id < xs[j].id
  }

  /** The file of an entry holds its declared number of bytes with its declared digest. */
  predicate Good(p: Plan, d: map<File, Bytes>, x: Expected) {
    Entry(x.id) in d && |d[Entry(x.id)]| == x.size && p.hash(d[Entry(x.id)]) == x.digest
  }

  predicate AllGood(p: Plan, d: map<File, Bytes>) {
    forall i :: 0 <= i < |p.entries| ==> Good(p, d, p.entries[i])
  }

  /** The file of an entry holds these bytes, of its declared size and, if that was checked, digest. */
  predicate Holds(p: Plan, d: map<File, Bytes>, x: Expected, bytes: Bytes, checked: bool) {
    Entry(x.id) in d && d[Entry(x.id)] == bytes && |bytes| == x.size && (checked ==> p.hash(bytes) == x.digest)
  }

  predicate Known(p: Plan, f: File) {
    f.Pending? || f.Entry? ==> exists i :: 0 <= i < |p.entries| && p.entries[i].id == f.id
  }

  /** The marker carries the binding and vouches for every selected entry. */
  predicate Trustworthy(p: Plan, d: Disc) {
    d.Some? && Sealed in d.value ==> d.value[Sealed] == p.binding && AllGood(p, d.value)
  }

  /** Nothing else lies in the stage. */
  predicate Clean(p: Plan, d: Disc) {
    d.Some? ==> forall f :: f in d.value ==> Known(p, f)
  }

  /** A file that goes on with all of the data goes on with any piece of it. */
  lemma Continues(a: Bytes, b: Bytes, content: Bytes, i: nat, n: nat)
    requires i + n <= |b| && |a| + i + n <= |content|
    ensures a + b <= content ==> content[|a| + i..|a| + i + n] == b[i..i + n]
  {
    if a + b <= content {
      assert content[|a| + i..|a| + i + n] == (a + b)[|a| + i..|a| + i + n];
      assert (a + b)[|a| + i..|a| + i + n] == b[i..i + n];
    }
  }

  /** From one state of the directory to the other no files but these changed, came or went. */
  predicate OnlyChanged(a: Disc, b: Disc, files: set<File>) {
    a == b || (&& a.Some? && b.Some?
               && (forall f :: f in a.value && f !in files ==> f in b.value && b.value[f] == a.value[f])
               && (forall f :: f in b.value && f !in files ==> f in a.value))
  }

  datatype SealOutcome = Completed | Failed | Indeterminate

  class PayloadStage {
    const plan: Plan
    const verification: bool
    var disc: Disc
    var completed: seq<bool>
    var written: nat
    var sealed: bool
    var markerVisible: bool
    var abandoned: bool
    var active: Option<nat>
    /** The bytes replayed for the active entry; when writing, the input of its digest. */
    var replayed: Bytes
    /** A call has thrown; only the destructor runs after that. */
    var thrown: bool
    /** A system call has failed during the last call. */
    var faulted: bool
    /** A system call failed during a call before that. */
    ghost var disturbed: bool
    /** Every state the directory went through. */
    ghost var history: seq<Disc>
    /** The bytes replayed for each completed entry. */
    ghost var replays: seq<Bytes>
    /** Nothing foreign lay in the directory when the stage was opened. */
    ghost const clean: bool

    /** No system call has failed so far. */
    ghost predicate Undisturbed()
      reads this`faulted, this`disturbed
    {
      !faulted && !disturbed
    }

    ghost predicate Valid()
      reads this`disc, this`completed, this`written, this`sealed, this`markerVisible, this`abandoned
      reads this`active, this`replayed, this`thrown, this`history, this`replays
    {
      && Sorted(plan.entries) && |completed| == |plan.entries| == |replays|
      && (if verification then history == [] && disc.Some? && Sealed in disc.value && disc.value[Sealed] == plan.binding
          else AlwaysTrustworthy() && Trustworthy(plan, disc))
      && (clean ==> Clean(plan, disc))
      && (!abandoned ==> disc.Some? && (Sealed in disc.value <==> markerVisible))
      && (abandoned && disc.Some? ==> Sealed !in disc.value)
      && (verification ==> markerVisible && !abandoned)
      && (sealed ==> markerVisible && active.None? && AllCompleted())
      && (markerVisible ==> !abandoned)
      && (!abandoned ==> forall i :: 0 <= i < |completed| && completed[i] ==> Holds(plan, disc.value, plan.entries[i], replays[i], !verification))
      && (!verification && markerVisible ==> active.None? && AllCompleted())
      && (active.Some? ==> active.value < |plan.entries| && !completed[active.value])
      && (active.Some? && !thrown && !abandoned ==> ActiveOk(disc.value))
    }

    /** What a crash leaves vouches for itself, however far the stage was written. */
    ghost predicate AlwaysTrustworthy()
      reads this`history
    {
      forall i :: 0 <= i < |history| ==> Trustworthy(plan, history[i])
    }

    predicate AllCompleted()
      reads this`completed
    {
      forall i :: 0 <= i < |completed| ==> completed[i]
    }

    /** The replayed bytes are those the entries declare. */
    ghost predicate AllDigestsAgree()
      requires |replays| == |plan.entries|
      reads this`replays
    {
      forall i :: 0 <= i < |plan.entries| ==> plan.hash(replays[i]) == plan.entries[i].digest
    }

    lemma SealedAgree()
      requires Valid() && sealed
      ensures AllGood(plan, disc.value) <==> AllDigestsAgree()
    {
      forall i | 0 <= i < |plan.entries|
        ensures Good(plan, disc.value, plan.entries[i]) <==> plan.hash(replays[i]) == plan.entries[i].digest
      {
        assert completed[i] && Holds(plan, disc.value, plan.entries[i], replays[i], !verification);
      }
    }

    ghost predicate ActiveOk(d: map<File, Bytes>)
      requires active.Some? && active.value < |plan.entries|
      reads this`active, this`written, this`replayed
    {
      var x := plan.entries[active.value];
      && written <= x.size
      && |replayed| == written
      && (if verification then Entry(x.id) in d && replayed <= d[Entry(x.id)]
          else Pending(x.id) in d && d[Pending(x.id)] == replayed)
    }

    /** A stage over a directory just opened, in the mode its marker decides: a fresh or resumed stage
        writes; one whose marker was found to carry the binding verifies, whatever its entries hold. */
    constructor (p: Plan, d: map<File, Bytes>)
      requires Sorted(p.entries) && (Sealed in d ==> d[Sealed] == p.binding)
      ensures Valid() && plan == p && disc == Some(d) && verification == (Sealed in d) && clean == Clean(p, Some(d))
      ensures !sealed && !abandoned && active.None? && !thrown && history == [] && Undisturbed()
      ensures forall i :: 0 <= i < |completed| ==> !completed[i]
    {
      plan, verification, disc := p, Sealed in d, Some(d);
      completed := seq(|p.entries|, _ => false);
      written, sealed, markerVisible, abandoned, active := 0, false, Sealed in d, false, None;
      replayed, thrown, faulted, history := [], false, false, [];
      replays, clean, disturbed := seq(|p.entries|, _ => []), Clean(p, Some(d)), false;
    }

    /** A call begins in which nothing has failed yet. */
    method Enter()
      modifies this`faulted, this`disturbed
      ensures !faulted && disturbed == (old(disturbed) || old(faulted))
    {
      disturbed := disturbed || faulted;
      faulted := false;
    }

    /** A call that throws unless it gets to its end. */
    method Risk()
      requires Valid()
      modifies this`faulted, this`disturbed, this`thrown
      ensures Valid() && thrown && !faulted && disturbed == (old(disturbed) || old(faulted))
    {
      Enter();
      thrown := true;
    }

    method Change(d: map<File, Bytes>)
      requires !verification && AlwaysTrustworthy() && Trustworthy(plan, Some(d))
      modifies this`disc, this`history
      ensures disc == Some(d) && history == old(history) + [Some(d)] && AlwaysTrustworthy()
    {
      disc := Some(d);
      history := history + [disc];
    }

    method ExpectedIndex(id: nat) returns (r: Option<nat>)
      requires Sorted(plan.entries)
      ensures r.Some? ==> r.value < |plan.entries| && plan.entries[r.value].id == id
      ensures r.None? ==> forall i :: 0 <= i < |plan.entries| ==> plan.entries[i].id != id
    {
      var lo, hi := 0, |plan.entries|;
      while lo < hi
        invariant 0 <= lo <= hi <= |plan.entries|
        invariant forall i :: 0 <= i < lo ==> plan.entries[i].id < id
        invariant forall i :: hi <= i < |plan.entries| ==> id <= plan.entries[i].id
      {
        var mid := (lo + hi) / 2;
        if plan.entries[mid].id < id { lo := mid + 1; } else { hi := mid; }
      }
      return if lo < |plan.entries| && plan.entries[lo].id == id then Some(lo) else None;
    }

    /** Open the sealed file of the entry, or a new pending one. */
    method OpenEntry(k: nat, id: nat) returns (ok: bool)
      requires Valid() && thrown && !abandoned && !sealed && active.None?
      requires k < |plan.entries| && !completed[k] && plan.entries[k].id == id
      modifies this`active, this`written, this`disc, this`history, this`faulted
      ensures Valid() && active == Some(k) && written == 0
      ensures ok && verification ==> Entry(id) in disc.value
      ensures ok && !verification ==> Pending(id) in disc.value && disc.value[Pending(id)] == []
      ensures verification ==> disc == old(disc)
      ensures OnlyChanged(old(disc), disc, {Pending(id)})
      ensures !faulted ==> (ok <==> !verification || Entry(id) in disc.value)
    {
      assert !verification ==> !markerVisible;
      active, written := Some(k), 0;
      if * { faulted := true; return false; }
      if verification {
        return Entry(id) in disc.value;
      }
      Change(disc.value[Pending(id) := []]);
      return true;
    }

    /** Start an entry; `ok` is false where the operation throws. */
    method Begin(e: PackageEntry) returns (ok: bool)
      requires Valid() && !thrown
      modifies this
      ensures disturbed == (old(disturbed) || old(faulted))
      ensures Valid() && thrown == !ok
      ensures ok ==> !abandoned && !sealed && old(active).None? && active.Some? && written == 0 && replayed == []
      ensures ok ==> Cites(e, plan.entries[active.value]) && !completed[active.value]
      ensures !faulted && !old(abandoned) && !old(sealed) && old(active).None? ==>
        forall k :: 0 <= k < |plan.entries| && Cites(e, plan.entries[k]) && !old(completed)[k] ==>
          ((verification ==> Entry(e.id) in old(disc).value) ==> ok && active == Some(k))
      ensures completed == old(completed) && replays == old(replays) && markerVisible == old(markerVisible) && sealed == old(sealed) && abandoned == old(abandoned)
      ensures verification ==> disc == old(disc)
      ensures OnlyChanged(old(disc), disc, {Pending(e.id)})
    {
      hide Trustworthy, Clean, Good, Holds, Known;
      Risk();
      if abandoned || sealed || active.Some? {
        return false;
      }
      var index := ExpectedIndex(e.id);
      assert forall k :: 0 <= k < |plan.entries| && Cites(e, plan.entries[k]) ==> index == Some(k);
      if index.None? || completed[index.value] || !Cites(e, plan.entries[index.value]) {
        return false;
      }
      ok := OpenEntry(index.value, e.id);
      if !ok {
        return;
      }
      replayed := [];
      thrown := false;
      return true;
    }

    /** More bytes of the active entry: compared with the sealed file, or appended to the pending one. */
    method Write(e: PackageEntry, data: Bytes) returns (ok: bool)
      requires Valid() && !thrown
      modifies this
      ensures disturbed == (old(disturbed) || old(faulted))
      ensures Valid() && thrown == !ok
      ensures ok ==> active == old(active) && active.Some? && replayed == old(replayed) + data && written == old(written) + |data|
      ensures ok ==> Cites(e, plan.entries[active.value])
      ensures !faulted && !old(abandoned) && !old(sealed) && old(active).Some? ==>
        var x := plan.entries[old(active).value];
        Cites(e, x) && old(written) + |data| <= x.size ==>
          ((verification ==> old(replayed) + data <= old(disc).value[Entry(x.id)]) ==> ok)
      ensures completed == old(completed) && replays == old(replays) && markerVisible == old(markerVisible) && sealed == old(sealed) && abandoned == old(abandoned)
      ensures verification ==> disc == old(disc)
      ensures OnlyChanged(old(disc), disc, if old(active).Some? then {Pending(plan.entries[old(active).value].id)} else {})
    {
      hide Cites, Sorted, Good;
      Risk();
      if active.None? || abandoned || sealed {
        return false;
      }
      var x := plan.entries[active.value];
      if !Cites(e, x) || written > x.size || |data| > x.size - written {
        return false;
      }
      if verification {
        ok := CompareReplay(x, data);
        if !ok {
          return;
        }
      } else {
        ok := AppendPending(x.id, data);
        if !ok {
          return;
        }
      }
      Take(data);
      return true;
    }

    /** Bytes that have been compared or appended count as replayed. */
    method Take(data: Bytes)
      requires Valid() && thrown && active.Some? && !abandoned && |replayed| == written
      requires var x, all := plan.entries[active.value], replayed + data;
        && written + |data| <= x.size
        && (if verification then Entry(x.id) in disc.value && all <= disc.value[Entry(x.id)]
            else Pending(x.id) in disc.value && disc.value[Pending(x.id)] == all)
      modifies this`replayed, this`written, this`thrown
      ensures Valid() && !thrown && replayed == old(replayed) + data && written == old(written) + |data|
    {
      hide Sorted, Good;
      replayed := replayed + data;
      written := written + |data|;
      thrown := false;
    }

    /** The bytes join the pending file; a failing call may leave some of them there. */
    method AppendPending(id: nat, data: Bytes) returns (ok: bool)
      requires Valid() && thrown && !verification && !abandoned && !markerVisible && Pending(id) in disc.value
      modifies this`disc, this`history, this`faulted
      ensures Valid() && (ok ==> disc.Some? && Pending(id) in disc.value && disc.value[Pending(id)] == old(disc).value[Pending(id)] + data)
      ensures ok || faulted
      ensures OnlyChanged(old(disc), disc, {Pending(id)})
    {
      hide Sorted, Good;
      var n :| 0 <= n <= |data|;
      ok := n == |data|;
      faulted := !ok;
      Change(disc.value[Pending(id) := disc.value[Pending(id)] + data[..n]]);
      assert data[..|data|] == data;
    }

    /** Read the sealed file on in pieces of any length and compare each with the replay. */
    method CompareReplay(x: Expected, data: Bytes) returns (same: bool)
      requires disc.Some? && Entry(x.id) in disc.value && replayed <= disc.value[Entry(x.id)]
      modifies this`faulted
      ensures same ==> replayed + data <= disc.value[Entry(x.id)]
      ensures !faulted && replayed + data <= disc.value[Entry(x.id)] ==> same
    {
      var content := disc.value[Entry(x.id)];
      var offset := 0;
      while offset < |data|
        invariant offset <= |data| && replayed + data[..offset] <= content
      {
        var at := |replayed| + offset;
        if * { faulted := true; return false; }
        if at == |content| {
          return false;
        }
        var most := if |data| - offset < |content| - at then |data| - offset else |content| - at;
        assert 1 <= most;
        var result :| 1 <= result <= most;
        Continues(replayed, data, content, offset, result);
        if content[at..at + result] != data[offset..offset + result] {
          return false;
        }
        assert replayed + data[..offset + result] == (replayed + data[..offset]) + data[offset..offset + result];
        offset := offset + result;
      }
      assert data[..offset] == data;
      return true;
    }

    /** The active entry is complete: its sealed file ends here, or its bytes have the expected digest
        and take its name. */
    method End(e: PackageEntry) returns (ok: bool)
      requires Valid() && !thrown
      modifies this
      ensures disturbed == (old(disturbed) || old(faulted))
      ensures Valid() && thrown == !ok
      ensures ok ==> old(active).Some? && active.None? && completed == old(completed)[old(active).value := true]
      ensures ok ==> Cites(e, plan.entries[old(active).value])
      ensures ok ==> replays == old(replays)[old(active).value := old(replayed)]
      ensures ok ==> disc.Some? && Holds(plan, disc.value, plan.entries[old(active).value], replays[old(active).value], !verification)
      ensures !ok ==> completed == old(completed) && replays == old(replays)
      ensures !faulted && !old(abandoned) && !old(sealed) && old(active).Some? ==>
        var x := plan.entries[old(active).value];
        Cites(e, x) && old(written) == x.size ==>
          ((if verification then |old(disc).value[Entry(x.id)]| == x.size else plan.hash(old(replayed)) == x.digest) ==> ok)
      ensures markerVisible == old(markerVisible) && sealed == old(sealed) && abandoned == old(abandoned)
      ensures verification ==> disc == old(disc)
      ensures OnlyChanged(old(disc), disc, {Pending(e.id), Entry(e.id)})
    {
      Risk();
      if active.None? || abandoned || sealed {
        return false;
      }
      var x := plan.entries[active.value];
      if !Cites(e, x) || written != x.size {
        return false;
      }
      if verification {
        if * { faulted := true; return false; }
        if |disc.value[Entry(x.id)]| > written {
          return false;
        }
      } else {
        ok := FinishPending();
        if !ok {
          return;
        }
      }
      Accept();
      thrown := false;
      return true;
    }

    /** The entry whose file holds its whole replay is complete. */
    method Accept()
      requires Valid() && thrown && active.Some? && !abandoned && !sealed && (!verification ==> !markerVisible)
      requires var x := plan.entries[active.value];
        && Entry(x.id) in disc.value && disc.value[Entry(x.id)] == replayed && |replayed| == x.size
        && (!verification ==> plan.hash(replayed) == x.digest)
      modifies this`completed, this`replays, this`active, this`written
      ensures Valid() && active.None? && written == 0
      ensures completed == old(completed)[old(active).value := true] && replays == old(replays)[old(active).value := replayed]
      ensures Holds(plan, disc.value, plan.entries[old(active).value], replays[old(active).value], !verification)
    {
      completed, replays := completed[active.value := true], replays[active.value := replayed];
      active := None;
      written := 0;
    }

    /** The pending file is checked, synchronized and put in place, and the directory synchronized. */
    method FinishPending() returns (ok: bool)
      requires Valid() && thrown && !verification && active.Some? && !abandoned && !sealed && !markerVisible
      requires ActiveOk(disc.value) && written == plan.entries[active.value].size
      modifies this`disc, this`history, this`faulted
      ensures Valid()
      ensures ok ==> disc.Some? && plan.hash(replayed) == plan.entries[active.value].digest
      ensures !faulted && plan.hash(replayed) == plan.entries[active.value].digest ==> ok
      ensures ok ==> Entry(plan.entries[active.value].id) in disc.value && disc.value[Entry(plan.entries[active.value].id)] == replayed
      ensures var id := plan.entries[active.value].id; OnlyChanged(old(disc), disc, {Pending(id), Entry(id)})
    {
      if plan.hash(replayed) != plan.entries[active.value].digest {
        return false;
      }
      if * { faulted := true; return false; }
      PutInPlace();
      if * { faulted := true; return false; }
      return true;
    }

    /** The pending file, complete and with the expected digest, takes the name of its entry. */
    method PutInPlace()
      requires Valid() && thrown && !verification && active.Some? && !abandoned && !sealed && !markerVisible
      requires ActiveOk(disc.value) && written == plan.entries[active.value].size
      requires plan.hash(replayed) == plan.entries[active.value].digest
      modifies this`disc, this`history
      ensures Valid() && disc.Some? && Entry(plan.entries[active.value].id) in disc.value
      ensures disc.value[Entry(plan.entries[active.value].id)] == replayed
      ensures var id := plan.entries[active.value].id; OnlyChanged(old(disc), disc, {Pending(id), Entry(id)})
    {
      var x := plan.entries[active.value];
      ghost var before := disc.value;
      Change((disc.value - {Pending(x.id)})[Entry(x.id) := disc.value[Pending(x.id)]]);
      Renamed(before, disc.value, active.value);
    }

    /** Putting one entry in place takes no other away. */
    lemma Renamed(a: map<File, Bytes>, b: map<File, Bytes>, k: nat)
      requires Sorted(plan.entries) && k < |plan.entries| && Pending(plan.entries[k].id) in a
      requires b == (a - {Pending(plan.entries[k].id)})[Entry(plan.entries[k].id) := a[Pending(plan.entries[k].id)]]
      ensures forall i :: 0 <= i < |plan.entries| && i != k && Entry(plan.entries[i].id) in a ==>
        Entry(plan.entries[i].id) in b && b[Entry(plan.entries[i].id)] == a[Entry(plan.entries[i].id)]
    {
    }

    /** Publish the marker, or find it published, and make it durable. */
    method Seal() returns (o: SealOutcome)
      requires Valid() && !thrown
      modifies this
      ensures disturbed == (old(disturbed) || old(faulted))
      ensures Valid() && !thrown && active == old(active) && completed == old(completed) && abandoned == old(abandoned)
      ensures replays == old(replays)
      ensures o == Completed ==> sealed && Sealed in disc.value && disc.value[Sealed] == plan.binding
      ensures o == Completed ==> !abandoned && AllCompleted() && forall i :: 0 <= i < |plan.entries| ==> Holds(plan, disc.value, plan.entries[i], replays[i], !verification)
      ensures o == Completed ==> (AllGood(plan, disc.value) <==> AllDigestsAgree())
      ensures o == Indeterminate ==> markerVisible && !sealed && AllCompleted() && active.None? && !abandoned
      ensures o == Failed ==> !sealed && markerVisible == old(markerVisible)
      ensures !faulted && !abandoned && AllCompleted() && active.None? ==> o == Completed
      ensures old(markerVisible) ==> disc == old(disc)
      ensures OnlyChanged(old(disc), disc, {SealedPending, Sealed})
    {
      Enter();
      if abandoned {
        return Failed;
      }
      if sealed {
        SealedAgree();
        return Completed;
      }
      if active.Some? || exists i :: 0 <= i < |completed| && !completed[i] {
        return Failed;
      }
      if Sealed in disc.value {
        if * { faulted := true; return Indeterminate; }
      } else {
        var published := PublishMarker();
        if !published {
          return Failed;
        }
      }
      if * { faulted := true; return Indeterminate; }
      sealed := true;
      SealedAgree();
      return Completed;
    }

    /** Write the marker under its pending name and move it in place. */
    method PublishMarker() returns (ok: bool)
      requires Valid() && !thrown && !abandoned && !sealed && !markerVisible && active.None? && AllCompleted()
      requires !verification
      modifies this`disc, this`history, this`faulted, this`markerVisible
      ensures Valid() && ok == markerVisible && (!ok ==> faulted) && (ok ==> faulted == old(faulted))
      ensures disc.Some? && (ok ==> Sealed in disc.value && disc.value[Sealed] == plan.binding)
      ensures OnlyChanged(old(disc), disc, {SealedPending, Sealed})
    {
      ghost var before := disc.value;
      assert forall i :: 0 <= i < |completed| ==> completed[i] && Holds(plan, before, plan.entries[i], replays[i], true);
      var n :| 0 <= n <= |plan.binding|;
      if n < |plan.binding| {
        faulted := true;
        Change(disc.value[SealedPending := plan.binding[..n]]);
        return false;
      }
      Change(disc.value[SealedPending := plan.binding]);
      if * { faulted := true; return false; }
      StillGood(before, (disc.value - {SealedPending})[Sealed := disc.value[SealedPending]]);
      Change((disc.value - {SealedPending})[Sealed := disc.value[SealedPending]]);
      markerVisible := true;
      return true;
    }

    /** Writing the marker touches no entry. */
    lemma StillGood(a: map<File, Bytes>, b: map<File, Bytes>)
      requires |replays| == |plan.entries|
      requires forall i :: 0 <= i < |plan.entries| ==> Holds(plan, a, plan.entries[i], replays[i], true)
      requires forall k :: Entry(k) in a ==> Entry(k) in b && b[Entry(k)] == a[Entry(k)]
      ensures AllGood(plan, b)
    {
    }

    /** The destructor: before the marker is visible the whole stage goes, after it nothing changes. */
    method Abandon()
      requires Valid()
      modifies this
      ensures disturbed == (old(disturbed) || old(faulted))
      ensures Valid()
      ensures old(abandoned || markerVisible) ==> disc == old(disc) && history == old(history) && abandoned == old(abandoned)
      ensures !old(abandoned || markerVisible) ==> abandoned && (!faulted && clean ==> disc == None)
      ensures markerVisible == old(markerVisible) && sealed == old(sealed)
      ensures ForeignStays(old(disc), disc)
    {
      Enter();
      if abandoned || sealed || markerVisible {
        return;
      }
      abandoned := true;
      RemoveEntries();
      RemoveRest();
    }

    /** The files beside the entries, and then the directory, which goes once it is empty. */
    method RemoveRest()
      requires Valid() && abandoned && disc.Some?
      modifies this`disc, this`history, this`faulted
      ensures Valid()
      ensures old(Emptied(disc.value, |plan.entries|)) && !faulted && clean ==> disc == None
      ensures ForeignStays(old(disc), disc)
      ensures old(faulted) ==> faulted
    {
      hide OnlyChanged, ForeignStays, Good, Known;
      ghost var before := disc;
      RemoveOthers();
      if * { faulted := true; return; }
      if disc.value.Keys == {} {
        NoForeign(before, disc.value);
        disc := None;
        history := history + [disc];
      } else if !faulted && clean && Emptied(before.value, |plan.entries|) {
        NothingLeft(disc.value);
      }
    }

    lemma NoForeign(a: Disc, d: map<File, Bytes>)
      requires ForeignStays(a, Some(d)) && d.Keys == {}
      ensures ForeignStays(a, None)
    {
    }

    method RemoveOthers()
      requires Valid() && abandoned && disc.Some?
      modifies this`disc, this`history, this`faulted
      ensures Valid() && disc.Some? && disc.value.Keys <= old(disc).value.Keys
      ensures !faulted ==> SealedPending !in disc.value && Binding !in disc.value && Lock !in disc.value
      ensures ForeignStays(old(disc), disc)
      ensures old(faulted) ==> faulted
    {
      hide Trustworthy, Good, Clean;
      Unlink(SealedPending);
      Unlink(Binding);
      Unlink(Lock);
    }

    method RemoveEntries()
      requires Valid() && abandoned && disc.Some?
      modifies this`disc, this`history, this`faulted
      ensures Valid() && disc.Some?
      ensures !faulted ==> Emptied(disc.value, |plan.entries|)
      ensures ForeignStays(old(disc), disc)
      ensures old(faulted) ==> faulted
    {
      for i := 0 to |plan.entries|
        invariant Valid() && disc.Some? && (!faulted ==> Emptied(disc.value, i))
        invariant ForeignStays(old(disc), disc)
        invariant old(faulted) ==> faulted
      {
        Unlink(Pending(plan.entries[i].id));
        Unlink(Entry(plan.entries[i].id));
      }
    }

    /** Whatever belongs to no selected entry and is no file of a stage is untouched. */
    ghost predicate ForeignStays(a: Disc, b: Disc) {
      a.Some? ==> forall f :: f in a.value && !Known(plan, f) ==> b.Some? && f in b.value && b.value[f] == a.value[f]
    }

    ghost predicate Emptied(d: map<File, Bytes>, i: nat) {
      forall j :: 0 <= j < i && j < |plan.entries| ==> Pending(plan.entries[j].id) !in d && Entry(plan.entries[j].id) !in d
    }

    /** A file that cannot be removed stays. */
    method Unlink(f: File)
      requires Valid() && abandoned && disc.Some? && f != Sealed
      modifies this`disc, this`history, this`faulted
      ensures OnlyChanged(old(disc), disc, {f})
      ensures Valid() && disc.Some? && disc.value.Keys <= old(disc).value.Keys
      ensures !faulted ==> f !in disc.value
      ensures old(faulted) ==> faulted
    {
      if * { faulted := true; }
      else { Change(disc.value - {f}); }
    }

    lemma NothingLeft(d: map<File, Bytes>)
      requires Valid() && clean && disc == Some(d) && d.Keys != {}
      requires Sealed !in d && SealedPending !in d && Binding !in d && Lock !in d
      ensures exists j :: 0 <= j < |plan.entries| && (Pending(plan.entries[j].id) in d || Entry(plan.entries[j].id) in d)
    {
    }
  }

  /* ---------- a whole replay ---------- */

  function Joined(chunks: seq<Bytes>): Bytes {
    if chunks == [] then [] else Joined(chunks[..|chunks| - 1]) + chunks[|chunks| - 1]
  }

  lemma {:induction false} JoinedGrows(chunks: seq<Bytes>, n: nat)
    requires n <= |chunks|
    ensures Joined(chunks[..n]) <= Joined(chunks) && Joined(chunks[..0]) == []
    decreases |chunks|
  {
    if n == |chunks| {
      assert chunks[..n] == chunks;
    } else {
      var front := chunks[..|chunks| - 1];
      assert front[..n] == chunks[..n];
      JoinedGrows(front, n);
    }
  }

  lemma JoinedMore(chunks: seq<Bytes>, n: nat)
    requires n < |chunks|
    ensures Joined(chunks[..n + 1]) == Joined(chunks[..n]) + chunks[n] && Joined(chunks[..n + 1]) <= Joined(chunks)
  {
    assert chunks[..n + 1][..n] == chunks[..n];
    JoinedGrows(chunks, n + 1);
  }

  /** One entry of a package as a replay supplies it: its header and its bytes in pieces. */
  datatype Supply = Supply(entry: PackageEntry, chunks: seq<Bytes>)

  /** The replay supplies every selected entry once, in any order. */
  ghost predicate Covers(p: Plan, supplies: seq<Supply>, order: seq<nat>) {
    && |order| == |supplies|
    && (forall j :: 0 <= j < |order| ==> order[j] < |p.entries| && Cites(supplies[j].entry, p.entries[order[j]]))
    && (forall i, j :: 0 <= i < j < |order| ==> order[i] != order[j])
    && (forall k :: 0 <= k < |p.entries| ==> k in order)
  }

  /** The bytes are those the package declares; where the stage was sealed before, those it holds. */
  ghost predicate Faithful(p: Plan, d: map<File, Bytes>, supplies: seq<Supply>) {
    forall j :: 0 <= j < |supplies| ==>
      var bytes := Joined(supplies[j].chunks);
      && supplies[j].entry.size == |bytes| && supplies[j].entry.digest == Some(p.hash(bytes))
      && (Sealed in d ==> Entry(supplies[j].entry.id) in d && d[Entry(supplies[j].entry.id)] == bytes)
  }

  /** One entry of the replay. */
  method SupplyEntry(stage: PayloadStage, supply: Supply, ghost k: nat) returns (ok: bool)
    requires stage.Valid() && !stage.thrown && !stage.sealed && !stage.abandoned && stage.active.None?
    requires k < |stage.plan.entries| && Cites(supply.entry, stage.plan.entries[k]) && !stage.completed[k]
    requires |Joined(supply.chunks)| == supply.entry.size && stage.plan.hash(Joined(supply.chunks)) == stage.plan.entries[k].digest
    requires stage.verification ==> Entry(supply.entry.id) in stage.disc.value && stage.disc.value[Entry(supply.entry.id)] == Joined(supply.chunks)
    modifies stage
    ensures stage.Valid() && (stage.Undisturbed() ==> ok) && (ok ==> !stage.thrown)
    ensures stage.Undisturbed() ==> old(stage.Undisturbed())
    ensures ok ==> !stage.sealed && !stage.abandoned && stage.active.None?
    ensures ok ==> stage.completed == old(stage.completed)[k := true] && stage.replays == old(stage.replays)[k := Joined(supply.chunks)]
    ensures stage.verification ==> stage.disc == old(stage.disc)
  {
    hide OnlyChanged, Trustworthy, Clean, Good, Known, Holds, Joined;
    ok := stage.Begin(supply.entry);
    if !ok {
      return;
    }
    assert stage.active == Some(k);
    JoinedGrows(supply.chunks, 0);
    for j := 0 to |supply.chunks|
      invariant stage.Valid() && !stage.thrown && !stage.sealed && !stage.abandoned && stage.active == Some(k)
      invariant stage.completed == old(stage.completed) && stage.replays == old(stage.replays)
      invariant stage.Undisturbed() ==> old(stage.Undisturbed())
      invariant stage.replayed == Joined(supply.chunks[..j])
      invariant stage.verification ==> stage.disc == old(stage.disc)
    {
      JoinedMore(supply.chunks, j);
      ok := stage.Write(supply.entry, supply.chunks[j]);
      if !ok {
        return;
      }
    }
    assert supply.chunks[..|supply.chunks|] == supply.chunks;
    ok := stage.End(supply.entry);
  }

  /** The first `n` supplies are complete, with their bytes, and nothing else is. */
  ghost predicate Supplied(p: Plan, completed: seq<bool>, replays: seq<Bytes>, supplies: seq<Supply>, order: seq<nat>, n: nat)
    requires Covers(p, supplies, order) && n <= |supplies|
  {
    && |completed| == |replays| == |p.entries|
    && (forall k :: 0 <= k < |completed| ==> (completed[k] <==> k in order[..n]))
    && (forall j :: 0 <= j < n ==> replays[order[j]] == Joined(supplies[j].chunks))
  }

  lemma SuppliedMore(p: Plan, completed: seq<bool>, replays: seq<Bytes>, supplies: seq<Supply>, order: seq<nat>, n: nat)
    requires Covers(p, supplies, order) && n < |supplies| && Supplied(p, completed, replays, supplies, order, n)
    ensures !completed[order[n]]
    ensures Supplied(p, completed[order[n] := true], replays[order[n] := Joined(supplies[n].chunks)], supplies, order, n + 1)
  {
    assert order[..n + 1] == order[..n] + [order[n]];
  }

  lemma AllSupplied(p: Plan, completed: seq<bool>, replays: seq<Bytes>, supplies: seq<Supply>, order: seq<nat>, d: map<File, Bytes>)
    requires Covers(p, supplies, order) && Faithful(p, d, supplies) && Supplied(p, completed, replays, supplies, order, |supplies|)
    ensures forall k :: 0 <= k < |p.entries| ==> completed[k] && p.hash(replays[k]) == p.entries[k].digest
    ensures forall j :: 0 <= j < |supplies| ==> replays[order[j]] == Joined(supplies[j].chunks)
  {
    assert order[..|supplies|] == order;
    forall k | 0 <= k < |p.entries|
      ensures completed[k] && p.hash(replays[k]) == p.entries[k].digest
    {
      assert k in order;
      var j :| 0 <= j < |order| && order[j] == k;
    }
  }

  /** Supply the entries one after another. */
  method SupplyEntries(stage: PayloadStage, d: map<File, Bytes>, supplies: seq<Supply>, ghost order: seq<nat>) returns (ok: bool)
    requires stage.Valid() && !stage.thrown && !stage.sealed && !stage.abandoned && stage.active.None?
    requires stage.verification == (Sealed in d) && stage.disc == Some(d) && forall k :: 0 <= k < |stage.completed| ==> !stage.completed[k]
    requires Covers(stage.plan, supplies, order) && Faithful(stage.plan, d, supplies)
    modifies stage
    ensures stage.Valid() && (stage.Undisturbed() ==> ok && old(stage.Undisturbed()))
    ensures ok ==> !stage.thrown && !stage.sealed && !stage.abandoned && stage.active.None?
    ensures ok ==> Supplied(stage.plan, stage.completed, stage.replays, supplies, order, |supplies|)
  {
    ok := true;
    for j := 0 to |supplies|
      invariant ok && stage.Valid() && !stage.thrown && !stage.sealed && !stage.abandoned && stage.active.None?
      invariant stage.verification ==> stage.disc == Some(d)
      invariant stage.Undisturbed() ==> old(stage.Undisturbed())
      invariant Supplied(stage.plan, stage.completed, stage.replays, supplies, order, j)
    {
      SuppliedMore(stage.plan, stage.completed, stage.replays, supplies, order, j);
      hide Supplied;
      ok := SupplyEntry(stage, supplies[j], order[j]);
      if !ok {
        return;
      }
    }
  }

  /** A faithful replay of every selected entry, in pieces of any size, ends in a completed seal unless a call
      fails, and then every entry's file holds its bytes. */
  method SupplyAll(p: Plan, d: map<File, Bytes>, supplies: seq<Supply>, ghost order: seq<nat>) returns (o: SealOutcome, stage: PayloadStage)
    requires Sorted(p.entries) && (Sealed in d ==> d[Sealed] == p.binding)
    requires Covers(p, supplies, order) && Faithful(p, d, supplies)
    ensures stage.Valid() && stage.plan == p && (stage.Undisturbed() ==> o == Completed)
    ensures o == Completed ==> stage.disc.Some? && Sealed in stage.disc.value && stage.disc.value[Sealed] == p.binding
    ensures o == Completed ==> AllGood(p, stage.disc.value) && forall j :: 0 <= j < |supplies| ==>
      var f := Entry(supplies[j].entry.id); f in stage.disc.value && stage.disc.value[f] == Joined(supplies[j].chunks)
  {
    stage := new PayloadStage(p, d);
    var ok := SupplyEntries(stage, d, supplies, order);
    o := Failed;
    if ok {
      AllSupplied(p, stage.completed, stage.replays, supplies, order, d);
      o := stage.Seal();
    }
  }
}
