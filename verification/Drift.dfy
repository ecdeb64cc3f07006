/** A drift of directory metadata above a path changes no admission check beneath or beside it. */
module Drift {
  import opened Tree
  import opened Namespace

  /** Two objects a drift cannot tell apart for anyone who does not read directory metadata. */
  ghost predicate Alike(a: Option<Node>, b: Option<Node>) {
    || a == b
    || (a.Some? && b.Some? && a.value.Dir? && b.value.Dir? && a.value.ino == b.value.ino)
  }

  lemma DriftedSlots(a: Node, b: Node, p: Path, q: Path, i: nat)
    requires i < |p| && i < |q| && Drifted(a, b, p, i)
    ensures Home(a, q, i).Some? <==> Home(b, q, i).Some?
    ensures Home(a, q, i).Some? ==>
      var s, t := SlotsIn(Home(a, q, i).value.entries, q), SlotsIn(Home(b, q, i).value.entries, q);
      Alike(s.leaf, t.leaf) && s.prepared == t.prepared && s.displaced == t.displaced
    decreases |p| - i
  {
    if i + 1 == |p| {
    } else {
      var c := Plain(p[i]);
      if q[i] == p[i] {
        if i + 1 < |q| {
          DriftedSlots(a.entries[c], b.entries[c], p, q, i + 1);
        } else {
          DriftedEnds(a.entries[c], b.entries[c], p, i + 1);
          SameEntry(a.entries, b.entries, {c}, Prepared(q));
          SameEntry(a.entries, b.entries, {c}, Displaced(q));
        }
      } else {
        SameEntry(a.entries, b.entries, {c}, Plain(q[i]));
        SameEntry(a.entries, b.entries, {c}, Prepared(q));
        SameEntry(a.entries, b.entries, {c}, Displaced(q));
      }
    }
  }

  lemma DriftedEnds(a: Node, b: Node, p: Path, i: nat)
    requires i < |p| && Drifted(a, b, p, i)
    ensures a.Dir? && b.Dir? && a.ino == b.ino
  {
  }

  lemma DriftedLeaf(a: Node, b: Node, p: PackagePath)
    requires Drifted(a, b, p, 0)
    ensures At(a, p, 0) == At(b, p, 0)
    ensures Home(a, p, 0).Some? && Home(b, p, 0).Some? && SlotsAt(a, p) == SlotsAt(b, p)
  {
    DriftedHome(a, b, p, 0);
    AtHome(a, p, 0);
    AtHome(b, p, 0);
  }

  lemma DriftedAdmit(a: Node, b: Node, p: PackagePath, o: Observation)
    requires Drifted(a, b, p, 0)
    ensures Admit(a, p, o) == Admit(b, p, o)
  {
    DriftedLeaf(a, b, p);
    if o.Present? && o.anchor.Some? {
      DriftedSlots(a, b, p, o.anchor.value, 0);
    }
  }

  lemma DriftedAbove(a: Node, b: Node, p: Path, k: nat, i: nat)
    requires i <= k < |p| && Drifted(a, b, p, i)
    ensures At(a, p[..k], i).Some? && At(a, p[..k], i).value.Dir?
    ensures At(b, p[..k], i).Some? && At(b, p[..k], i).value.Dir?
    decreases |p| - i
  {
    if i < k {
      DriftedAbove(a.entries[Plain(p[i])], b.entries[Plain(p[i])], p, k, i + 1);
    }
  }

  /** The time the parent directory is left with does not matter to the path itself. */
  lemma ReplaceDrifted(a: Node, p: Path, i: nat, s: Slots, t: Time, u: Time)
    requires i < |p| && Home(a, p, i).Some?
    ensures Drifted(Replace(a, p, i, s, t), Replace(a, p, i, s, u), p, i)
    decreases |p| - i
  {
    if i + 1 < |p| {
      var c := Plain(p[i]);
      ReplaceDrifted(a.entries[c], p, i + 1, s, t, u);
      var x, y := Replace(a, p, i, s, t), Replace(a, p, i, s, u);
      assert x.entries - {c} == a.entries - {c};
      assert y.entries - {c} == a.entries - {c};
    }
  }
}
