/**
 Shapes: the lists of keys objects share, as a forest of nodes that remember the transitions
 taken from them.  A node is named by its index.  Shared nodes belong to the frozen realm.
 */
module Shapes {
  import opened Options
  import opened Properties

  datatype Shape = Shape(parent: Option<nat>, key: Option<Key>, slot: nat, count: nat, transitions: map<Key, nat>, shared: bool)

  const BLANK := Shape(None, None, 0, 0, map[], false)

  /** A node is the start of a list, or the end of its parent's list by one key. */
  predicate NodeOk(ns: seq<Shape>, i: nat)
    requires i < |ns|
  {
    var n := ns[i];
    && n.parent.Some? == n.key.Some?
    && (n.parent.None? ==> n.count == 0)
    && (n.parent.Some? ==>
          n.parent.value < i && n.slot == ns[n.parent.value].count && n.count == n.slot + 1
          && (n.shared ==> ns[n.parent.value].shared))
    && forall k :: k in n.transitions ==> TransitionOk(ns, i, k, n.transitions[k])
  }

  predicate TransitionOk(ns: seq<Shape>, i: nat, k: Key, t: nat) {
    i < |ns| && t < |ns| && ns[t].parent == Some(i) && ns[t].key == Some(k) && (ns[i].shared ==> ns[t].shared)
  }

  ghost predicate NodesOk(ns: seq<Shape>) { forall i :: 0 <= i < |ns| ==> NodeOk(ns, i) }

  function KeysOf(ns: seq<Shape>, s: nat): (r: seq<Key>)
    requires NodesOk(ns) && s < |ns|
    ensures |r| == ns[s].count
    decreases s
  {
    assert NodeOk(ns, s);
    if ns[s].parent.None? then [] else KeysOf(ns, ns[s].parent.value) + [ns[s].key.value]
  }

  ghost predicate ShapesOk(ns: seq<Shape>) {
    NodesOk(ns) && forall i :: 0 <= i < |ns| ==> Unique(KeysOf(ns, i))
  }

  // ---------- Transitions ----------

  /** The node one key further, from a node that is not shared. */
  function Extend(ns: seq<Shape>, s: nat, k: Key): (seq<Shape>, nat)
    requires s < |ns|
  {
    if k in ns[s].transitions then (ns, ns[s].transitions[k])
    else
      (ns[s := ns[s].(transitions := ns[s].transitions[k := |ns|])]
       + [Shape(Some(s), Some(k), ns[s].count, ns[s].count + 1, map[], false)], |ns|)
  }

  function ExtendAll(ns: seq<Shape>, s: nat, keys: seq<Key>): (seq<Shape>, nat)
    requires s < |ns|
    decreases |keys|
  {
    if keys == [] then (ns, s)
    else
      var (ns1, s1) := Extend(ns, s, keys[0]);
      if s1 < |ns1| then ExtendAll(ns1, s1, keys[1..]) else (ns, s)
  }

  /** A private copy of the list of a shared node. */
  function Unshare(ns: seq<Shape>, s: nat): (seq<Shape>, nat)
    requires NodesOk(ns) && s < |ns|
  {
    if !ns[s].shared then (ns, s) else ExtendAll(ns + [BLANK], |ns|, KeysOf(ns, s))
  }

  function Transition(ns: seq<Shape>, s: nat, k: Key): (seq<Shape>, nat)
    requires NodesOk(ns) && s < |ns|
  {
    var (ns1, u) := Unshare(ns, s);
    if u < |ns1| then Extend(ns1, u, k) else (ns, s)
  }

  /** All a transition may do to the nodes there are. */
  ghost predicate Preserved(ns: seq<Shape>, ns1: seq<Shape>) {
    && |ns| <= |ns1|
    && (forall i :: 0 <= i < |ns| ==> ns1[i] == ns[i].(transitions := ns1[i].transitions))
    && (forall i :: 0 <= i < |ns| && ns[i].shared ==> ns1[i] == ns[i])
  }

  lemma {:induction false} KeysStay(ns: seq<Shape>, ns1: seq<Shape>, s: nat)
    requires NodesOk(ns) && NodesOk(ns1) && Preserved(ns, ns1) && s < |ns|
    ensures KeysOf(ns1, s) == KeysOf(ns, s)
    decreases s
  {
    assert NodeOk(ns, s);
    if ns[s].parent.Some? { KeysStay(ns, ns1, ns[s].parent.value); }
  }

  predicate Fresh(keys: seq<Key>, k: Key) { forall i :: 0 <= i < |keys| ==> keys[i].text != k.text }

  lemma ExtendNodes(ns: seq<Shape>, s: nat, k: Key)
    requires NodesOk(ns) && s < |ns| && !ns[s].shared
    ensures var (ns1, t) := Extend(ns, s, k);
      NodesOk(ns1) && Preserved(ns, ns1) && t < |ns1| && !ns1[t].shared && ns1[t].parent == Some(s) && ns1[t].key == Some(k)
  {
    var (ns1, t) := Extend(ns, s, k);
    assert NodeOk(ns, s);
    if k in ns[s].transitions {
      assert TransitionOk(ns, s, k, t);
      assert NodeOk(ns, t);
    }
    forall i | 0 <= i < |ns1| ensures NodeOk(ns1, i) {
      if i < |ns| {
        assert NodeOk(ns, i);
        forall x | x in ns1[i].transitions ensures TransitionOk(ns1, i, x, ns1[i].transitions[x]) {
          if x in ns[i].transitions && ns1[i].transitions[x] == ns[i].transitions[x] { assert TransitionOk(ns, i, x, ns[i].transitions[x]); }
        }
      }
    }
  }

  lemma ExtendRight(ns: seq<Shape>, s: nat, k: Key)
    requires ShapesOk(ns) && s < |ns| && !ns[s].shared && Fresh(KeysOf(ns, s), k)
    ensures var (ns1, t) := Extend(ns, s, k);
      ShapesOk(ns1) && Preserved(ns, ns1) && t < |ns1| && !ns1[t].shared && KeysOf(ns1, t) == KeysOf(ns, s) + [k]
  {
    var (ns1, t) := Extend(ns, s, k);
    ExtendNodes(ns, s, k);
    KeysStay(ns, ns1, s);
    assert KeysOf(ns1, t) == KeysOf(ns1, s) + [k];
    forall i | 0 <= i < |ns1| ensures Unique(KeysOf(ns1, i)) {
      if i < |ns| { KeysStay(ns, ns1, i); } else { assert i == t; }
    }
  }

  lemma {:induction false} ExtendAllRight(ns: seq<Shape>, s: nat, keys: seq<Key>)
    requires ShapesOk(ns) && s < |ns| && !ns[s].shared && Unique(KeysOf(ns, s) + keys)
    ensures var (ns1, t) := ExtendAll(ns, s, keys);
      ShapesOk(ns1) && Preserved(ns, ns1) && t < |ns1| && !ns1[t].shared && KeysOf(ns1, t) == KeysOf(ns, s) + keys
    decreases |keys|
  {
    var old_ := KeysOf(ns, s);
    if keys == [] {
      assert old_ + [] == old_;
    } else {
      forall i | 0 <= i < |old_| ensures old_[i].text != keys[0].text {
        assert (old_ + keys)[i] == old_[i] && (old_ + keys)[|old_|] == keys[0];
      }
      ExtendRight(ns, s, keys[0]);
      var (ns1, s1) := Extend(ns, s, keys[0]);
      assert old_ + [keys[0]] + keys[1..] == old_ + keys;
      ExtendAllRight(ns1, s1, keys[1..]);
    }
  }

  lemma UnshareRight(ns: seq<Shape>, s: nat)
    requires ShapesOk(ns) && s < |ns|
    ensures var (ns1, u) := Unshare(ns, s);
      ShapesOk(ns1) && Preserved(ns, ns1) && u < |ns1| && !ns1[u].shared && KeysOf(ns1, u) == KeysOf(ns, s)
  {
    if ns[s].shared {
      BlankRight(ns);
      var keys := KeysOf(ns, s);
      assert KeysOf(ns + [BLANK], |ns|) + keys == keys;
      ExtendAllRight(ns + [BLANK], |ns|, keys);
    }
  }

  lemma BlankRight(ns: seq<Shape>)
    requires ShapesOk(ns)
    ensures ShapesOk(ns + [BLANK]) && Preserved(ns, ns + [BLANK]) && KeysOf(ns + [BLANK], |ns|) == []
  {
    var ns0 := ns + [BLANK];
    forall i | 0 <= i < |ns0| ensures NodeOk(ns0, i) {
      if i < |ns| {
        assert NodeOk(ns, i);
        forall x | x in ns0[i].transitions ensures TransitionOk(ns0, i, x, ns0[i].transitions[x]) { assert TransitionOk(ns, i, x, ns[i].transitions[x]); }
      }
    }
    forall i | 0 <= i < |ns0| ensures Unique(KeysOf(ns0, i)) { if i < |ns| { KeysStay(ns, ns0, i); } }
  }

  /** A transition leads to the list with one more key, changes no node's list, and writes to no shared node. */
  lemma TransitionRight(ns: seq<Shape>, s: nat, k: Key)
    requires ShapesOk(ns) && s < |ns| && Fresh(KeysOf(ns, s), k)
    ensures var (ns1, t) := Transition(ns, s, k);
      && ShapesOk(ns1) && Preserved(ns, ns1) && t < |ns1| && !ns1[t].shared && KeysOf(ns1, t) == KeysOf(ns, s) + [k]
      && forall i :: 0 <= i < |ns| ==> KeysOf(ns1, i) == KeysOf(ns, i)
  {
    UnshareRight(ns, s);
    var (ns1, u) := Unshare(ns, s);
    ExtendRight(ns1, u, k);
    var (ns2, t) := Extend(ns1, u, k);
    forall i | 0 <= i < |ns| ensures KeysOf(ns2, i) == KeysOf(ns, i) { KeysStay(ns, ns2, i); }
  }

  /** Objects that receive the same keys in the same order share their shape: from a node that is not
      shared, the same key leads to the same node again. */
  lemma Converges(ns: seq<Shape>, s: nat, k: Key)
    requires NodesOk(ns) && s < |ns| && !ns[s].shared
    ensures var (ns1, t) := Transition(ns, s, k); s < |ns1| && !ns1[s].shared && Extend(ns1, s, k) == (ns1, t)
  {
    ExtendNodes(ns, s, k);
  }

  // ---------- Lookup ----------

  /** From a node back to the start: by identity first, then by text. */
  function LookupKey(ns: seq<Shape>, s: nat, k: Key): Option<nat>
    requires NodesOk(ns) && s < |ns|
    decreases s
  {
    assert NodeOk(ns, s);
    if ns[s].key.None? then None
    else if ns[s].key.value == k then Some(ns[s].slot)
    else LookupKey(ns, ns[s].parent.value, k)
  }

  function LookupText(ns: seq<Shape>, s: nat, text: string): Option<nat>
    requires NodesOk(ns) && s < |ns|
    decreases s
  {
    assert NodeOk(ns, s);
    if ns[s].key.None? then None
    else if ns[s].key.value.text == text then Some(ns[s].slot)
    else LookupText(ns, ns[s].parent.value, text)
  }

  function Lookup(ns: seq<Shape>, s: nat, k: Key): Option<nat>
    requires NodesOk(ns) && s < |ns|
  {
    var i := LookupKey(ns, s, k);
    if i.Some? then i else LookupText(ns, s, k.text)
  }

  lemma {:induction false} LookupTextIs(ns: seq<Shape>, s: nat, text: string)
    requires NodesOk(ns) && s < |ns|
    ensures LookupText(ns, s, text) == Find(KeysOf(ns, s), text)
    decreases s
  {
    assert NodeOk(ns, s);
    if ns[s].key.Some? {
      var p := ns[s].parent.value;
      LookupTextIs(ns, p, text);
      FindMore(KeysOf(ns, p), ns[s].key.value, text);
    }
  }

  lemma {:induction false} LookupKeyIs(ns: seq<Shape>, s: nat, k: Key)
    requires NodesOk(ns) && s < |ns| && Unique(KeysOf(ns, s))
    ensures LookupKey(ns, s, k).Some? ==> LookupKey(ns, s, k) == Find(KeysOf(ns, s), k.text)
    decreases s
  {
    assert NodeOk(ns, s);
    if ns[s].key.Some? {
      var p := ns[s].parent.value;
      var keys := KeysOf(ns, p);
      assert Unique(keys) by {
        forall i, j | 0 <= i < j < |keys| ensures keys[i].text != keys[j].text {
          assert (keys + [ns[s].key.value])[i] == keys[i] && (keys + [ns[s].key.value])[j] == keys[j];
        }
      }
      LookupKeyIs(ns, p, k);
      FindMore(keys, ns[s].key.value, k.text);
      if ns[s].key.value != k && LookupKey(ns, p, k).Some? {
        var i := Find(keys, k.text).value;
        assert (keys + [ns[s].key.value])[i].text != (keys + [ns[s].key.value])[|keys|].text;
      }
    }
  }

  /** Lookup finds the slot of the only key with the text, whichever heap interned it. */
  lemma LookupIs(ns: seq<Shape>, s: nat, k: Key)
    requires ShapesOk(ns) && s < |ns|
    ensures Lookup(ns, s, k) == Find(KeysOf(ns, s), k.text)
    ensures forall i :: 0 <= i < |KeysOf(ns, s)| ==> Lookup(ns, s, KeysOf(ns, s)[i]) == Some(i)
  {
    LookupTextIs(ns, s, k.text);
    LookupKeyIs(ns, s, k);
    forall i | 0 <= i < |KeysOf(ns, s)| ensures Lookup(ns, s, KeysOf(ns, s)[i]) == Some(i) {
      LookupTextIs(ns, s, KeysOf(ns, s)[i].text);
      LookupKeyIs(ns, s, KeysOf(ns, s)[i]);
      FindIs(KeysOf(ns, s), i);
    }
  }
}
