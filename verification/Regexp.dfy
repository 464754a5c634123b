/**
 The backtracking regular-expression matcher.

 `Node` is the compiled pattern, `Run` the mutable run state (gas, abort flag, step
 counter and capture array) and `Cont` the matcher's continuation closures, written
 out as data: each constructor is one closure of the search.

 `Ends` is an independent meaning for a pattern, the ordered list of all ends of its
 matches from one position; `Matches` is the textbook relation, without iteration
 caps or empty-iteration rules.  The search is proved to return the head of `Ends` at
 the least start at which the relation holds, unless it was stopped.
 */
module Regexp {
  import opened Options

  const GAS_NODE := 1
  const GAS_BACKTRACK := 2
  const MAX_INPUT_LEN := 0x10_0000

  datatype AnchorKind = Caret | Dollar | WordBound | NotWordBound

  datatype CharClass = CharClass(neg: bool, latin: set<int>, ranges: seq<(int, int)>)

  datatype Node =
    | Empty
    | Lit(r: int)
    | Dot
    | Cls(cls: CharClass)
    | Concat(kids: seq<Node>)
    | Alt(kids: seq<Node>)
    | Repeat(child: Node, min: int, max: int, lazy: bool)
    | Cap(cap: nat, inner: Node)
    | Look(inner: Node, neg: bool, behind: bool)
    | Back(cap: nat)
    | Anchor(kind: AnchorKind)

  /** The subject string, seen through its rune decoder: `rune(p)` and `width(p)` are
      the rune starting at byte p and its size, `last(p)` the rune ending at byte p,
      and `same(a, b, n)` and `sameFolded(a, b, n)` compare the n bytes at a and at b. */
  datatype Subject = Subject(len: nat, rune: int -> int, width: int -> int, last: int -> int,
                             same: (int, int, int) -> bool, sameFolded: (int, int, int) -> bool)
  {
    ghost predicate Valid() {
      forall p :: 0 <= p < len ==> 1 <= width(p) <= len - p
    }
  }

  /** The Unicode tables the matcher consults. */
  datatype Tables = Tables(lower: int -> int, upper: int -> int, letterOrDigit: int -> bool)

  datatype Prog = Prog(root: Node, ncap: nat, icase: bool, multiline: bool, dotAll: bool)

  /** Everything that stays fixed during one search.  `interrupt`, when present, is
      asked with the number of the step at which it is consulted. */
  datatype Env = Env(p: Prog, s: Subject, u: Tables, interrupt: Option<nat -> bool>)
  {
    ghost predicate Valid() { s.Valid() }
    predicate At(pos: int) { 0 <= pos <= s.len }
  }

  // ---------- Single-rune tests ----------

  predicate HasExact(c: CharClass, r: int) {
    if r < 256 then r in c.latin
    else exists i :: 0 <= i < |c.ranges| && c.ranges[i].0 <= r <= c.ranges[i].1
  }

  predicate Has(u: Tables, c: CharClass, r: int, icase: bool) {
    var ok := HasExact(c, r) || (icase && (HasExact(c, u.lower(r)) || HasExact(c, u.upper(r))));
    if c.neg then !ok else ok
  }

  predicate EqRune(e: Env, a: int, b: int) {
    a == b || (e.p.icase && e.u.lower(a) == e.u.lower(b))
  }

  predicate IsNL(r: int) { r == 10 || r == 13 || r == 0x2028 || r == 0x2029 }

  predicate WordRune(u: Tables, r: int) { r == 95 || u.letterOrDigit(r) }

  function PrevRune(s: Subject, pos: int): int { if pos <= 0 then 0 else s.last(pos) }

  predicate IsWordBound(e: Env, pos: int) {
    WordRune(e.u, PrevRune(e.s, pos)) != (pos < e.s.len && WordRune(e.u, e.s.rune(pos)))
  }

  /** The one-rune patterns. */
  predicate Accepts(e: Env, n: Node, r: int) {
    match n
    case Lit(x) => EqRune(e, r, x)
    case Dot => e.p.dotAll || !IsNL(r)
    case Cls(c) => Has(e.u, c, r, e.p.icase)
    case _ => false
  }

  predicate AnchorHolds(e: Env, k: AnchorKind, pos: int) {
    match k
    case Caret => pos == 0 || (e.p.multiline && pos > 0 && IsNL(PrevRune(e.s, pos)))
    case Dollar => pos == e.s.len || (e.p.multiline && pos < e.s.len && IsNL(e.s.rune(pos)))
    case WordBound => IsWordBound(e, pos)
    case NotWordBound => !IsWordBound(e, pos)
  }

  // ---------- Run state and continuations ----------

  datatype State = State(gas: int, aborted: bool, steps: nat, caps: seq<int>)

  function Fuel(st: State): nat { if st.gas > 0 then st.gas else 0 }

  /** Some consultation of the interrupt callback says stop. */
  ghost predicate Interruptible(e: Env) {
    e.interrupt.Some? && exists t: nat :: e.interrupt.value(t)
  }

  /** An abort is owed to spent gas or to the interrupt callback. */
  ghost predicate Excused(e: Env, st: State) {
    st.aborted ==> st.gas == 0 || Interruptible(e)
  }

  datatype Cont =
    | KTop(start: int)                                          // the search: record the whole match
    | KAny                                                      // a lookahead: any end will do
    | KEndAt(at: int)                                           // a lookbehind: the end must be here
    | KSeq(kids: seq<Node>, i: nat, k: Cont)                    // the rest of a concatenation
    | KRep(rep: Node, count: int, max: int, from: int, k: Cont) // one iteration is over
    | KCap(cap: nat, start: int, oldS: int, oldE: int, k: Cont) // a group closes

  ghost predicate ContOk(e: Env, k: Cont) {
    match k
    case KTop(_) | KAny | KEndAt(_) => true
    case KSeq(kids, i, k') => i <= |kids| && ContOk(e, k')
    case KRep(rep, _, _, _, k') => rep.Repeat? && ContOk(e, k')
    case KCap(_, _, _, _, k') => ContOk(e, k')
  }

  function Charge(st: State, n: int): (r: (bool, State))
    requires n > 0
    ensures r.1.caps == st.caps && Fuel(r.1) <= Fuel(st)
    ensures r.0 ==> !r.1.aborted && Fuel(r.1) < Fuel(st)
    ensures !r.0 ==> r.1.aborted && (!st.aborted ==> r.1.gas == 0)
    ensures r.1.steps == st.steps
  {
    if st.aborted then (false, st)
    else if st.gas <= n then (false, st.(gas := 0, aborted := true))
    else (true, st.(gas := st.gas - n))
  }

  function Enter(e: Env, st: State): (r: (bool, State))
    ensures r.1.caps == st.caps && Fuel(r.1) <= Fuel(st)
    ensures r.0 ==> !r.1.aborted && Fuel(r.1) < Fuel(st)
    ensures !r.0 ==> r.1.aborted
    ensures Excused(e, st) ==> Excused(e, r.1)
  {
    if st.aborted then (false, st) else
    var st1 := st.(steps := st.steps + 1);
    if e.interrupt.Some? && st1.steps % 256 == 0 && e.interrupt.value(st1.steps)
    then (false, st1.(aborted := true))
    else Charge(st1, GAS_NODE)
  }

  /** The iteration cap of a repeat entered at pos. */
  function MaxIter(e: Env, n: Node, pos: int): int
    requires n.Repeat?
  {
    if n.max >= 0 then n.max
    else if e.s.len - pos + 1 < n.min then n.min else e.s.len - pos + 1
  }

  function SetCap(caps: seq<int>, c: nat, a: int, b: int): (r: seq<int>)
    ensures |r| == |caps|
  {
    if c * 2 + 1 < |caps| then caps[c * 2 := a][c * 2 + 1 := b] else caps
  }

  function OldCap(caps: seq<int>, c: nat): (int, int) {
    if c * 2 + 1 < |caps| then (caps[c * 2], caps[c * 2 + 1]) else (-1, -1)
  }

  /** Where a back reference to group c, tried at pos, ends. */
  function BackEnd(e: Env, caps: seq<int>, c: nat, pos: int): (r: Option<int>)
    requires e.At(pos)
    ensures r.Some? ==> e.At(r.value)
  {
    if c * 2 + 1 >= |caps| then None else
    var a, b := caps[c * 2], caps[c * 2 + 1];
    if a < 0 || b < 0 || b < a || pos + (b - a) > e.s.len then None
    else if (if e.p.icase then e.s.sameFolded(pos, a, b - a) else e.s.same(pos, a, b - a))
    then Some(pos + (b - a)) else None
  }

  // ---------- The search as a function of the run state ----------

  function Exec(e: Env, n: Node, pos: int, st: State, k: Cont): (r: (bool, State))
    requires e.Valid() && e.At(pos) && ContOk(e, k)
    ensures Fuel(r.1) <= Fuel(st) && |r.1.caps| == |st.caps|
    ensures Excused(e, st) ==> Excused(e, r.1)
    ensures st.aborted ==> r == (false, st)
    decreases Fuel(st), 0
  {
    var (go, st1) := Enter(e, st);
    if !go then (false, st1) else
    match n
    case Empty => Resume(e, k, pos, st1)
    case Lit(_) | Dot | Cls(_) =>
      if pos >= e.s.len || !Accepts(e, n, e.s.rune(pos)) then (false, st1)
      else Resume(e, k, pos + e.s.width(pos), st1)
    case Concat(kids) => Resume(e, KSeq(kids, 0, k), pos, st1)
    case Alt(kids) => ExecAlt(e, kids, 0, pos, st1, k)
    case Repeat(_, _, _, _) => Take(e, n, 0, MaxIter(e, n, pos), pos, st1, k)
    case Cap(c, inner) =>
      var (oldS, oldE) := OldCap(st1.caps, c);
      Exec(e, inner, pos, st1, KCap(c, pos, oldS, oldE, k))
    case Look(inner, neg, behind) =>
      var (found, st2) := if behind then LookBehind(e, inner, 0, pos, st1)
                          else Exec(e, inner, pos, st1, KAny);
      if st2.aborted || found == neg then (false, st2) else Resume(e, k, pos, st2)
    case Back(c) =>
      var end := BackEnd(e, st1.caps, c, pos);
      if end.None? then (false, st1) else Resume(e, k, end.value, st1)
    case Anchor(kind) =>
      if AnchorHolds(e, kind, pos) then Resume(e, k, pos, st1) else (false, st1)
  }

  function ExecAlt(e: Env, kids: seq<Node>, idx: nat, pos: int, st: State, k: Cont): (r: (bool, State))
    requires e.Valid() && e.At(pos) && ContOk(e, k) && idx <= |kids|
    ensures Fuel(r.1) <= Fuel(st) && |r.1.caps| == |st.caps|
    ensures Excused(e, st) ==> Excused(e, r.1)
    decreases Fuel(st), 2, |kids| - idx
  {
    if idx == |kids| then (false, st) else
    var (go, st1) := if idx > 0 then Charge(st, GAS_BACKTRACK) else (true, st);
    if !go then (false, st1) else
    var (ok, st2) := Exec(e, kids[idx], pos, st1, k);
    if ok then (true, st2)
    else if st2.aborted then (false, st2)
    else ExecAlt(e, kids, idx + 1, pos, st2, k)
  }

  function Take(e: Env, n: Node, count: int, max: int, pos: int, st: State, k: Cont): (r: (bool, State))
    requires e.Valid() && e.At(pos) && ContOk(e, k) && n.Repeat?
    ensures Fuel(r.1) <= Fuel(st) && |r.1.caps| == |st.caps|
    ensures Excused(e, st) ==> Excused(e, r.1)
    decreases Fuel(st), 0
  {
    var (go, st1) := Charge(st, GAS_BACKTRACK);
    if !go then (false, st1)
    else if n.lazy then
      var (ok, st2) := if count >= n.min then Resume(e, k, pos, st1) else (false, st1);
      if ok then (true, st2)
      else if count == max then (false, st2)
      else Exec(e, n.child, pos, st2, KRep(n, count, max, pos, k))
    else if count == max then Resume(e, k, pos, st1)
    else
      var (matched, st2) := if count < max then Exec(e, n.child, pos, st1, KRep(n, count, max, pos, k))
                            else (false, st1);
      if matched then (true, st2)
      else if st2.aborted then (false, st2)
      else if count >= n.min then Resume(e, k, pos, st2)
      else (false, st2)
  }

  function LookBehind(e: Env, inner: Node, start: int, pos: int, st: State): (r: (bool, State))
    requires e.Valid() && e.At(pos) && e.At(start)
    ensures Fuel(r.1) <= Fuel(st) && |r.1.caps| == |st.caps|
    ensures Excused(e, st) ==> Excused(e, r.1)
    decreases Fuel(st), 2, e.s.len - start
  {
    if start > pos then (false, st) else
    var (ok, st1) := Exec(e, inner, start, st, KEndAt(pos));
    if ok then (true, st1)
    else if st1.aborted || start == pos then (false, st1)
    else LookBehind(e, inner, start + e.s.width(start), pos, st1)
  }

  function Resume(e: Env, k: Cont, pos: int, st: State): (r: (bool, State))
    requires e.Valid() && e.At(pos) && ContOk(e, k)
    ensures Fuel(r.1) <= Fuel(st) && |r.1.caps| == |st.caps|
    ensures Excused(e, st) ==> Excused(e, r.1)
    decreases Fuel(st), 1, k
  {
    match k
    case KTop(start) => (true, st.(caps := SetCap(st.caps, 0, start, pos)))
    case KAny => (true, st)
    case KEndAt(at) => (pos == at, st)
    case KSeq(kids, i, k') =>
      if i == |kids| then Resume(e, k', pos, st)
      else Exec(e, kids[i], pos, st, KSeq(kids, i + 1, k'))
    case KRep(rep, count, max, from, k') =>
      if pos == from && count >= rep.min then
        if rep.lazy then (false, st) else Resume(e, k', pos, st)
      else Take(e, rep, count + 1, max, pos, st, k')
    case KCap(c, start, oldS, oldE, k') =>
      var (ok, st1) := Resume(e, k', pos, st.(caps := SetCap(st.caps, c, start, pos)));
      if ok then (true, st1) else (false, st1.(caps := SetCap(st1.caps, c, oldS, oldE)))
  }

  // ---------- Meaning 1: the ordered list of ends ----------

  /** No back references, and bounded repeats are in order (the parser refuses others). */
  predicate Plain(n: Node) {
    match n
    case Empty | Lit(_) | Dot | Cls(_) | Anchor(_) => true
    case Concat(kids) => forall i :: 0 <= i < |kids| ==> Plain(kids[i])
    case Alt(kids) => forall i :: 0 <= i < |kids| ==> Plain(kids[i])
    case Repeat(child, min, max, _) => Plain(child) && (max >= 0 ==> min <= max)
    case Cap(_, inner) => Plain(inner)
    case Look(inner, _, _) => Plain(inner)
    case Back(_) => false
  }

  predicate Within(ends: seq<int>, lo: int, hi: int) {
    forall i :: 0 <= i < |ends| ==> lo <= ends[i] <= hi
  }

  /** All ends of matches of n from pos, in order of preference. */
  function Ends(e: Env, n: Node, pos: int): (r: seq<int>)
    requires e.Valid() && e.At(pos)
    ensures Within(r, pos, e.s.len)
    decreases n, 1
  {
    match n
    case Empty => [pos]
    case Lit(_) | Dot | Cls(_) =>
      if pos >= e.s.len || !Accepts(e, n, e.s.rune(pos)) then [] else [pos + e.s.width(pos)]
    case Concat(_) => EndsSeq(e, n, 0, pos)
    case Alt(_) => EndsAlt(e, n, 0, pos)
    case Repeat(_, _, _, _) => EndsRep(e, n, 0, MaxIter(e, n, pos), pos)
    case Cap(_, inner) => Ends(e, inner, pos)
    case Look(inner, neg, behind) =>
      var found := if behind then Behind(e, n, 0, pos) else Ends(e, inner, pos) != [];
      if found == neg then [] else [pos]
    case Back(_) => []
    case Anchor(kind) => if AnchorHolds(e, kind, pos) then [pos] else []
  }

  function EndsSeq(e: Env, n: Node, i: nat, pos: int): (r: seq<int>)
    requires e.Valid() && e.At(pos) && n.Concat? && i <= |n.kids|
    ensures Within(r, pos, e.s.len)
    decreases n, 0, |n.kids| - i, 0
  {
    if i == |n.kids| then [pos] else EndsSeqAll(e, n, i + 1, pos, Ends(e, n.kids[i], pos))
  }

  function EndsSeqAll(e: Env, n: Node, i: nat, from: int, ends: seq<int>): (r: seq<int>)
    requires e.Valid() && e.At(from) && n.Concat? && i <= |n.kids|
    requires Within(ends, from, e.s.len)
    ensures Within(r, from, e.s.len)
    decreases n, 0, |n.kids| - i, 1 + |ends|
  {
    if ends == [] then [] else EndsSeq(e, n, i, ends[0]) + EndsSeqAll(e, n, i, from, ends[1..])
  }

  function EndsAlt(e: Env, n: Node, i: nat, pos: int): (r: seq<int>)
    requires e.Valid() && e.At(pos) && n.Alt? && i <= |n.kids|
    ensures Within(r, pos, e.s.len)
    decreases n, 0, |n.kids| - i
  {
    if i == |n.kids| then [] else Ends(e, n.kids[i], pos) + EndsAlt(e, n, i + 1, pos)
  }

  function EndsRep(e: Env, n: Node, count: int, max: int, pos: int): (r: seq<int>)
    requires e.Valid() && e.At(pos) && n.Repeat? && count <= max
    ensures Within(r, pos, e.s.len)
    decreases n, 0, 2 * (max - count) + 1
  {
    var stop := if count >= n.min then [pos] else [];
    if n.lazy then
      stop + if count == max then [] else EndsRepAll(e, n, count, max, pos, Ends(e, n.child, pos))
    else if count == max then [pos]
    else EndsRepAll(e, n, count, max, pos, Ends(e, n.child, pos)) + stop
  }

  function EndsRepAll(e: Env, n: Node, count: int, max: int, from: int, ends: seq<int>): (r: seq<int>)
    requires e.Valid() && e.At(from) && n.Repeat? && count < max
    requires Within(ends, from, e.s.len)
    ensures Within(r, from, e.s.len)
    decreases n, 0, 2 * (max - count), |ends|
  {
    if ends == [] then []
    else EndsAfter(e, n, count, max, from, ends[0]) + EndsRepAll(e, n, count, max, from, ends[1..])
  }

  /** The ends that one iteration ending at m leads to. */
  function EndsAfter(e: Env, n: Node, count: int, max: int, from: int, m: int): (r: seq<int>)
    requires e.Valid() && e.At(from) && from <= m <= e.s.len && n.Repeat? && count < max
    ensures Within(r, from, e.s.len)
    decreases n, 0, 2 * (max - count), 0
  {
    if m == from && count >= n.min then (if n.lazy then [] else [from]) else EndsRep(e, n, count + 1, max, m)
  }

  /** Some rune boundary, from start on, begins a match of n.inner that ends at pos. */
  predicate Behind(e: Env, n: Node, start: int, pos: int)
    requires e.Valid() && e.At(start) && e.At(pos) && n.Look?
    decreases n, 0, e.s.len - start
  {
    start <= pos &&
    (pos in Ends(e, n.inner, start) || (start < pos && Behind(e, n, start + e.s.width(start), pos)))
  }

  // ---------- The search finds the first end its continuation accepts ----------

  ghost predicate Good(e: Env, k: Cont) {
    match k
    case KTop(_) | KAny | KEndAt(_) => true
    case KSeq(kids, i, k') => i <= |kids| && Plain(Concat(kids)) && Good(e, k')
    case KRep(rep, count, max, from, k') =>
      rep.Repeat? && Plain(rep) && count < max && Good(e, k')
    case KCap(_, _, _, _, k') => Good(e, k')
  }

  /** The continuation at the end of the chain. */
  function Bottom(k: Cont): Cont {
    match k
    case KTop(_) | KAny | KEndAt(_) => k
    case KSeq(_, _, k') => Bottom(k')
    case KRep(_, _, _, _, k') => Bottom(k')
    case KCap(_, _, _, _, k') => Bottom(k')
  }

  /** The first final end a continuation accepts when resumed at pos. */
  ghost function FirstOut(e: Env, k: Cont, pos: int): (r: Option<int>)
    requires e.Valid() && e.At(pos) && Good(e, k)
    decreases k, 0
  {
    match k
    case KTop(_) | KAny => Some(pos)
    case KEndAt(at) => if pos == at then Some(pos) else None
    case KSeq(kids, i, k') => First(e, EndsSeq(e, Concat(kids), i, pos), k')
    case KRep(rep, count, max, from, k') =>
      if pos == from && count >= rep.min then (if rep.lazy then None else FirstOut(e, k', pos))
      else First(e, EndsRep(e, rep, count + 1, max, pos), k')
    case KCap(_, _, _, _, k') => FirstOut(e, k', pos)
  }

  ghost function First(e: Env, ends: seq<int>, k: Cont): (r: Option<int>)
    requires e.Valid() && Within(ends, 0, e.s.len) && Good(e, k)
    decreases k, 1 + |ends|
  {
    if ends == [] then None else
    var r := FirstOut(e, k, ends[0]);
    if r.Some? then r else First(e, ends[1..], k)
  }

  lemma {:induction false} FirstAppend(e: Env, a: seq<int>, b: seq<int>, k: Cont)
    requires e.Valid() && Within(a, 0, e.s.len) && Within(b, 0, e.s.len) && Good(e, k)
    ensures Within(a + b, 0, e.s.len)
    ensures First(e, a + b, k) == if First(e, a, k).Some? then First(e, a, k) else First(e, b, k)
  {
    if a == [] {
      assert a + b == b;
    } else {
      assert (a + b)[1..] == a[1..] + b;
      FirstAppend(e, a[1..], b, k);
    }
  }

  lemma {:induction false} FirstOne(e: Env, pos: int, k: Cont)
    requires e.Valid() && e.At(pos) && Good(e, k)
    ensures First(e, [pos], k) == FirstOut(e, k, pos)
    ensures First(e, [], k) == None
  {
    hide FirstOut;
  }

  lemma {:induction false} FirstOutSeq(e: Env, kids: seq<Node>, pos: int, k: Cont)
    requires e.Valid() && e.At(pos) && Good(e, k) && Plain(Concat(kids))
    ensures FirstOut(e, KSeq(kids, 0, k), pos) == First(e, EndsSeq(e, Concat(kids), 0, pos), k)
  {
    hide First;
  }

  lemma {:induction false} FirstSeqAll(e: Env, n: Node, i: nat, from: int, ends: seq<int>, k: Cont)
    requires e.Valid() && e.At(from) && n.Concat? && Plain(n) && i <= |n.kids| && Good(e, k)
    requires Within(ends, from, e.s.len)
    ensures First(e, EndsSeqAll(e, n, i, from, ends), k) == First(e, ends, KSeq(n.kids, i, k))
  {
    hide Ends, EndsSeq;
    if ends != [] {
      FirstAppend(e, EndsSeq(e, n, i, ends[0]), EndsSeqAll(e, n, i, from, ends[1..]), k);
      FirstSeqAll(e, n, i, from, ends[1..], k);
    }
  }

  lemma {:induction false} FirstAfter(e: Env, n: Node, count: int, max: int, from: int, m: int, k: Cont)
    requires e.Valid() && e.At(from) && from <= m <= e.s.len
    requires n.Repeat? && Plain(n) && count < max && Good(e, k)
    ensures First(e, EndsAfter(e, n, count, max, from, m), k) == FirstOut(e, KRep(n, count, max, from, k), m)
  {
    hide EndsRep, First;
    FirstOne(e, from, k);
  }

  lemma {:induction false} FirstRepAll(e: Env, n: Node, count: int, max: int, from: int, ends: seq<int>, k: Cont)
    requires e.Valid() && e.At(from) && n.Repeat? && Plain(n) && count < max && Good(e, k)
    requires Within(ends, from, e.s.len)
    ensures First(e, EndsRepAll(e, n, count, max, from, ends), k)
         == First(e, ends, KRep(n, count, max, from, k))
  {
    hide Ends, EndsRep, FirstOut;
    if ends != [] {
      FirstAfter(e, n, count, max, from, ends[0], k);
      FirstAppend(e, EndsAfter(e, n, count, max, from, ends[0]),
                  EndsRepAll(e, n, count, max, from, ends[1..]), k);
      FirstRepAll(e, n, count, max, from, ends[1..], k);
    }
  }

  lemma {:induction false} FirstAny(e: Env, ends: seq<int>)
    requires e.Valid() && Within(ends, 0, e.s.len)
    ensures First(e, ends, KAny).Some? <==> ends != []
  {}

  lemma {:induction false} FirstEndAt(e: Env, ends: seq<int>, at: int)
    requires e.Valid() && Within(ends, 0, e.s.len)
    ensures First(e, ends, KEndAt(at)).Some? <==> at in ends
  {
    if ends != [] { FirstEndAt(e, ends[1..], at); }
  }

  /** The search's answer r is right: a success yields the wanted end (recorded by the
      outermost continuation), and a failure that is not an abort means there is none. */
  ghost predicate Right(k: Cont, want: Option<int>, r: (bool, State)) {
    && (r.0 ==> !r.1.aborted && want.Some?)
    && (r.0 && Bottom(k).KTop? && |r.1.caps| >= 2 ==>
          r.1.caps[0] == Bottom(k).start && r.1.caps[1] == want.value)
    && (!r.0 && !r.1.aborted ==> want.None?)
  }

  ghost predicate Ready(e: Env, n: Node, pos: int, k: Cont) {
    e.Valid() && e.At(pos) && Plain(n) && Good(e, k) && ContOk(e, k)
  }

  lemma {:induction false} ExecRight(e: Env, n: Node, pos: int, st: State, k: Cont)
    requires Ready(e, n, pos, k)
    ensures Right(k, First(e, Ends(e, n, pos), k), Exec(e, n, pos, st, k))
    decreases Fuel(st), 0
  {
    hide Resume, Take, ExecAlt, LookBehind, EndsSeq, EndsAlt, EndsRep, First, FirstOut, Behind;
    var (go, st1) := Enter(e, st);
    FirstOne(e, pos, k);
    if go {
      match n
      case Empty | Anchor(_) => ResumeRight(e, k, pos, st1);
      case Lit(_) | Dot | Cls(_) =>
        if pos < e.s.len {
          FirstOne(e, pos + e.s.width(pos), k);
          ResumeRight(e, k, pos + e.s.width(pos), st1);
        }
      case Concat(kids) =>
        FirstOutSeq(e, kids, pos, k);
        ResumeRight(e, KSeq(kids, 0, k), pos, st1);
      case Alt(kids) => AltRight(e, n, 0, pos, st1, k);
      case Repeat(_, _, _, _) => TakeRight(e, n, 0, MaxIter(e, n, pos), pos, st1, k);
      case Cap(c, inner) =>
        var (oldS, oldE) := OldCap(st1.caps, c);
        var k1 := KCap(c, pos, oldS, oldE, k);
        ExecRight(e, inner, pos, st1, k1);
        FirstSame(e, Ends(e, inner, pos), k1, k);
      case Look(inner, neg, behind) =>
        LookRight(e, n, pos, st1);
        var (found, st2) := if behind then LookBehind(e, inner, 0, pos, st1)
                            else Exec(e, inner, pos, st1, KAny);
        if !st2.aborted && found != neg { ResumeRight(e, k, pos, st2); }
      case Back(_) =>
    }
  }

  lemma {:induction false} LookRight(e: Env, n: Node, pos: int, st: State)
    requires Ready(e, n, pos, KAny) && n.Look? && !st.aborted
    ensures
      var (found, st2) := if n.behind then LookBehind(e, n.inner, 0, pos, st)
                          else Exec(e, n.inner, pos, st, KAny);
      !st2.aborted ==>
        found == if n.behind then Behind(e, n, 0, pos) else Ends(e, n.inner, pos) != []
    decreases Fuel(st), 3
  {
    hide Exec, LookBehind, Ends, Behind;
    if n.behind {
      BehindRight(e, n, 0, pos, st);
    } else {
      ExecRight(e, n.inner, pos, st, KAny);
      FirstAny(e, Ends(e, n.inner, pos));
    }
  }

  lemma {:induction false} FirstSame(e: Env, ends: seq<int>, k1: Cont, k: Cont)
    requires e.Valid() && Within(ends, 0, e.s.len) && Good(e, k) && k1.KCap? && k1.k == k
    ensures First(e, ends, k1) == First(e, ends, k)
  {
    if ends != [] { FirstSame(e, ends[1..], k1, k); }
  }

  lemma {:induction false} AltRight(e: Env, n: Node, i: nat, pos: int, st: State, k: Cont)
    requires Ready(e, n, pos, k) && n.Alt? && i <= |n.kids| && !st.aborted
    ensures Right(k, First(e, EndsAlt(e, n, i, pos), k), ExecAlt(e, n.kids, i, pos, st, k))
    decreases Fuel(st), 2, |n.kids| - i
  {
    hide Exec, Ends;
    if i < |n.kids| {
      var (go, st1) := if i > 0 then Charge(st, GAS_BACKTRACK) else (true, st);
      if go {
        ExecRight(e, n.kids[i], pos, st1, k);
        FirstAppend(e, Ends(e, n.kids[i], pos), EndsAlt(e, n, i + 1, pos), k);
        var (ok, st2) := Exec(e, n.kids[i], pos, st1, k);
        if !ok && !st2.aborted { AltRight(e, n, i + 1, pos, st2, k); }
      }
    }
  }

  /** The ends of a repeat, as the search will meet them: stopping here, and going on. */
  lemma {:induction false} RepUnfold(e: Env, n: Node, count: int, max: int, pos: int, k: Cont)
    requires Ready(e, n, pos, k) && n.Repeat? && count <= max
    ensures
      var stop := if count >= n.min then FirstOut(e, k, pos) else None;
      var more := if count < max then First(e, Ends(e, n.child, pos), KRep(n, count, max, pos, k)) else None;
      First(e, EndsRep(e, n, count, max, pos), k) ==
        if n.lazy then (if stop.Some? then stop else more)
        else if count == max then FirstOut(e, k, pos)
        else if more.Some? then more else stop
  {
    hide Ends, EndsRepAll;
    var stop := if count >= n.min then [pos] else [];
    FirstOne(e, pos, k);
    if count < max {
      var more := EndsRepAll(e, n, count, max, pos, Ends(e, n.child, pos));
      FirstRepAll(e, n, count, max, pos, Ends(e, n.child, pos), k);
      FirstAppend(e, stop, more, k);
      FirstAppend(e, more, stop, k);
    } else {
      assert stop + [] == stop;
    }
  }

  lemma {:induction false} TakeRight(e: Env, n: Node, count: int, max: int, pos: int, st: State, k: Cont)
    requires Ready(e, n, pos, k) && n.Repeat? && count <= max
    ensures Right(k, First(e, EndsRep(e, n, count, max, pos), k), Take(e, n, count, max, pos, st, k))
    decreases Fuel(st), 0
  {
    hide Exec, Resume, Ends, EndsRep, First, FirstOut;
    var (go, st1) := Charge(st, GAS_BACKTRACK);
    RepUnfold(e, n, count, max, pos, k);
    if go {
      if n.lazy {
        TakeLazyRight(e, n, count, max, pos, st1, k);
      } else if count == max {
        ResumeRight(e, k, pos, st1);
      } else {
        var k1 := KRep(n, count, max, pos, k);
        ExecRight(e, n.child, pos, st1, k1);
        var (matched, st2) := Exec(e, n.child, pos, st1, k1);
        if !matched && !st2.aborted && count >= n.min { ResumeRight(e, k, pos, st2); }
      }
    }
  }

  lemma {:induction false} TakeLazyRight(e: Env, n: Node, count: int, max: int, pos: int, st1: State, k: Cont)
    requires Ready(e, n, pos, k) && n.Repeat? && n.lazy && count <= max && !st1.aborted
    ensures
      var (ok, st2) := if count >= n.min then Resume(e, k, pos, st1) else (false, st1);
      (count >= n.min ==> Right(k, FirstOut(e, k, pos), (ok, st2))) &&
      (count < max ==>
         Right(k, First(e, Ends(e, n.child, pos), KRep(n, count, max, pos, k)),
               Exec(e, n.child, pos, st2, KRep(n, count, max, pos, k))))
    decreases Fuel(st1), 2
  {
    hide Exec, Resume, Ends;
    if count >= n.min { ResumeRight(e, k, pos, st1); }
    var (ok, st2) := if count >= n.min then Resume(e, k, pos, st1) else (false, st1);
    if count < max { ExecRight(e, n.child, pos, st2, KRep(n, count, max, pos, k)); }
  }

  lemma {:induction false} BehindRight(e: Env, n: Node, start: int, pos: int, st: State)
    requires Ready(e, n, pos, KAny) && n.Look? && e.At(start) && !st.aborted
    ensures var (ok, st1) := LookBehind(e, n.inner, start, pos, st);
            !st1.aborted ==> (ok <==> Behind(e, n, start, pos))
    decreases Fuel(st), 2, e.s.len - start
  {
    hide Exec, Ends;
    if start <= pos {
      ExecRight(e, n.inner, start, st, KEndAt(pos));
      FirstEndAt(e, Ends(e, n.inner, start), pos);
      var (ok, st1) := Exec(e, n.inner, start, st, KEndAt(pos));
      if !ok && !st1.aborted && start < pos {
        BehindRight(e, n, start + e.s.width(start), pos, st1);
      }
    }
  }

  lemma {:induction false} ResumeRight(e: Env, k: Cont, pos: int, st: State)
    requires e.Valid() && e.At(pos) && Good(e, k) && ContOk(e, k) && !st.aborted
    ensures Right(k, FirstOut(e, k, pos), Resume(e, k, pos, st))
    decreases Fuel(st), 1, k
  {
    hide Exec, Take, Ends, EndsRep;
    match k
    case KTop(_) | KAny | KEndAt(_) =>
    case KSeq(kids, i, k') =>
      if i == |kids| {
        ResumeRight(e, k', pos, st);
        assert First(e, [pos], k') == FirstOut(e, k', pos);
      } else {
        var ends := Ends(e, kids[i], pos);
        ExecRight(e, kids[i], pos, st, KSeq(kids, i + 1, k'));
        FirstSeqAll(e, Concat(kids), i + 1, pos, ends, k');
      }
    case KRep(rep, count, max, from, k') =>
      if pos == from && count >= rep.min {
        if !rep.lazy { ResumeRight(e, k', pos, st); }
      } else {
        TakeRight(e, rep, count + 1, max, pos, st, k');
      }
    case KCap(c, start, oldS, oldE, k') =>
      ResumeRight(e, k', pos, st.(caps := SetCap(st.caps, c, start, pos)));
  }

  // ---------- Meaning 2: the match relation ----------

  /** b is a rune boundary reached from start. */
  predicate Boundary(s: Subject, start: int, b: int)
    requires s.Valid() && 0 <= start <= s.len
    decreases s.len - start
  {
    start == b || (start < s.len && Boundary(s, start + s.width(start), b))
  }

  /** n matches the part of the subject from i to j. */
  ghost predicate Matches(e: Env, n: Node, i: int, j: int)
    requires e.Valid() && e.At(i) && e.At(j)
    decreases n, 1
  {
    match n
    case Empty => i == j
    case Lit(_) | Dot | Cls(_) => i < e.s.len && Accepts(e, n, e.s.rune(i)) && j == i + e.s.width(i)
    case Concat(_) => MatchesSeq(e, n, 0, i, j)
    case Alt(kids) => exists t :: 0 <= t < |kids| && Matches(e, kids[t], i, j)
    case Repeat(child, min, max, _) =>
      exists c: nat :: min <= c && (max >= 0 ==> c <= max) && MatchesTimes(e, n, c, i, j)
    case Cap(_, inner) => Matches(e, inner, i, j)
    case Look(inner, neg, behind) =>
      i == j && neg != if behind
                       then exists b | e.At(b) :: Boundary(e.s, 0, b) && Matches(e, inner, b, i)
                       else exists t | e.At(t) :: Matches(e, inner, i, t)
    case Back(_) => false
    case Anchor(kind) => i == j && AnchorHolds(e, kind, i)
  }

  /** The concatenation n, from its t-th part on, matches i to j. */
  ghost predicate MatchesSeq(e: Env, n: Node, t: nat, i: int, j: int)
    requires e.Valid() && e.At(i) && e.At(j) && n.Concat? && t <= |n.kids|
    decreases n, 0, |n.kids| - t
  {
    if t == |n.kids| then i == j
    else exists m | e.At(m) :: Matches(e, n.kids[t], i, m) && MatchesSeq(e, n, t + 1, m, j)
  }

  /** The body of the repeat n matches i to j in exactly c pieces. */
  ghost predicate MatchesTimes(e: Env, n: Node, c: nat, i: int, j: int)
    requires e.Valid() && e.At(i) && e.At(j) && n.Repeat?
    decreases n, 0, c
  {
    if c == 0 then i == j
    else exists m | e.At(m) :: Matches(e, n.child, i, m) && MatchesTimes(e, n, c - 1, m, j)
  }

  // ---------- The two meanings agree ----------

  /** The iteration cap and the empty-iteration rules lose no match and add none. */
  lemma {:induction false} EndsIffMatches(e: Env, n: Node, i: int, j: int)
    requires e.Valid() && e.At(i) && e.At(j) && Plain(n)
    ensures j in Ends(e, n, i) <==> Matches(e, n, i, j)
    decreases n, 1
  {
    match n
    case Empty | Lit(_) | Dot | Cls(_) | Back(_) | Anchor(_) =>
    case Concat(_) => SeqIffMatches(e, n, 0, i, j);
    case Alt(_) => AltIffMatches(e, n, 0, i, j);
    case Repeat(_, _, _, _) =>
      var cap := MaxIter(e, n, i);
      if j in Ends(e, n, i) {
        var c := RepSound(e, n, 0, cap, i, j);
      }
      if c: nat :| n.min <= c && (n.max >= 0 ==> c <= n.max) && MatchesTimes(e, n, c, i, j) {
        RepComplete(e, n, 0, cap, c, i, j);
      }
    case Cap(_, inner) => EndsIffMatches(e, inner, i, j);
    case Look(inner, neg, behind) =>
      if behind {
        BehindIff(e, n, 0, i);
      } else {
        forall t | e.At(t) ensures t in Ends(e, inner, i) <==> Matches(e, inner, i, t) {
          EndsIffMatches(e, inner, i, t);
        }
        if Ends(e, inner, i) != [] { assert Ends(e, inner, i)[0] in Ends(e, inner, i); }
      }
  }

  lemma {:induction false} SeqIffMatches(e: Env, n: Node, t: nat, i: int, j: int)
    requires e.Valid() && e.At(i) && e.At(j) && Plain(n) && n.Concat? && t <= |n.kids|
    ensures j in EndsSeq(e, n, t, i) <==> MatchesSeq(e, n, t, i, j)
    decreases n, 0, |n.kids| - t
  {
    if t < |n.kids| {
      var ends := Ends(e, n.kids[t], i);
      SeqAllMember(e, n, t + 1, i, ends, j);
      forall m | e.At(m)
        ensures m in ends <==> Matches(e, n.kids[t], i, m)
        ensures j in EndsSeq(e, n, t + 1, m) <==> MatchesSeq(e, n, t + 1, m, j)
      {
        EndsIffMatches(e, n.kids[t], i, m);
        SeqIffMatches(e, n, t + 1, m, j);
      }
    }
  }

  lemma {:induction false} SeqAllMember(e: Env, n: Node, t: nat, from: int, ends: seq<int>, j: int)
    requires e.Valid() && e.At(from) && n.Concat? && t <= |n.kids| && Within(ends, from, e.s.len)
    ensures j in EndsSeqAll(e, n, t, from, ends) <==>
            exists m | e.At(m) :: m in ends && j in EndsSeq(e, n, t, m)
  {
    if ends != [] {
      SeqAllMember(e, n, t, from, ends[1..], j);
      assert forall m :: m in ends <==> m == ends[0] || m in ends[1..];
      assert e.At(ends[0]) && ends[0] in ends;
      if j in EndsSeqAll(e, n, t, from, ends) && j !in EndsSeq(e, n, t, ends[0]) {
        assert j in EndsSeqAll(e, n, t, from, ends[1..]);
      }
    }
  }

  lemma {:induction false} AltIffMatches(e: Env, n: Node, t: nat, i: int, j: int)
    requires e.Valid() && e.At(i) && e.At(j) && Plain(n) && n.Alt? && t <= |n.kids|
    ensures j in EndsAlt(e, n, t, i) <==> exists x :: t <= x < |n.kids| && Matches(e, n.kids[x], i, j)
    decreases n, 0, |n.kids| - t
  {
    if t < |n.kids| {
      EndsIffMatches(e, n.kids[t], i, j);
      AltIffMatches(e, n, t + 1, i, j);
    }
  }

  lemma {:induction false} BehindIff(e: Env, n: Node, start: int, i: int)
    requires e.Valid() && e.At(start) && e.At(i) && Plain(n) && n.Look?
    ensures Behind(e, n, start, i) <==>
            exists b | e.At(b) :: Boundary(e.s, start, b) && Matches(e, n.inner, b, i)
    decreases n, 0, e.s.len - start
  {
    forall b | e.At(b) && Matches(e, n.inner, b, i) ensures b <= i {
      EndsIffMatches(e, n.inner, b, i);
    }
    BoundaryRises(e.s, start);
    if start <= i {
      EndsIffMatches(e, n.inner, start, i);
      if start < i { BehindIff(e, n, start + e.s.width(start), i); }
      if start == i && start < e.s.len { BoundaryRises(e.s, start + e.s.width(start)); }
    }
  }

  lemma {:induction false} BoundaryRises(s: Subject, start: int)
    requires s.Valid() && 0 <= start <= s.len
    ensures forall b :: Boundary(s, start, b) ==> start <= b <= s.len
    decreases s.len - start
  {
    if start < s.len { BoundaryRises(s, start + s.width(start)); }
  }

  lemma {:induction false} RepAllMember(e: Env, n: Node, count: int, max: int, from: int, ends: seq<int>, j: int)
    requires e.Valid() && e.At(from) && n.Repeat? && count < max && Within(ends, from, e.s.len)
    ensures j in EndsRepAll(e, n, count, max, from, ends) <==>
            exists m | from <= m <= e.s.len :: m in ends && j in EndsAfter(e, n, count, max, from, m)
  {
    if ends != [] {
      RepAllMember(e, n, count, max, from, ends[1..], j);
      var all, rest := EndsRepAll(e, n, count, max, from, ends), EndsRepAll(e, n, count, max, from, ends[1..]);
      assert j in all <==> j in EndsAfter(e, n, count, max, from, ends[0]) || j in rest;
      assert ends[0] in ends && forall m :: m in ends[1..] ==> m in ends;
      forall m | from <= m <= e.s.len && m in ends && j in EndsAfter(e, n, count, max, from, m)
        ensures j in all
      {
        if m != ends[0] { assert m in ends[1..]; }
      }
    }
  }

  lemma {:induction false} RepSound(e: Env, n: Node, count: int, max: int, i: int, j: int) returns (c: nat)
    requires e.Valid() && e.At(i) && e.At(j) && Plain(n) && n.Repeat? && count <= max
    requires n.max >= 0 ==> max == n.max
    requires n.min <= max
    requires j in EndsRep(e, n, count, max, i)
    ensures count + c >= n.min && count + c <= max && MatchesTimes(e, n, c, i, j)
    decreases n, 0, max - count
  {
    hide Ends, Matches, EndsRepAll;
    c := 0;
    if count < max && j in EndsRepAll(e, n, count, max, i, Ends(e, n.child, i)) {
      RepAllMember(e, n, count, max, i, Ends(e, n.child, i), j);
      var m :| i <= m <= e.s.len && m in Ends(e, n.child, i) && j in EndsAfter(e, n, count, max, i, m);
      if !(m == i && count >= n.min) {
        EndsIffMatches(e, n.child, i, m);
        c := RepSound(e, n, count + 1, max, m, j);
        c := c + 1;
      }
    }
  }

  lemma {:induction false} RepComplete(e: Env, n: Node, count: int, max: int, c: nat, i: int, j: int)
    requires e.Valid() && e.At(i) && e.At(j) && Plain(n) && n.Repeat? && count <= max
    requires MatchesTimes(e, n, c, i, j) && count + c >= n.min
    requires n.max >= 0 ==> count + c <= max
    requires n.max < 0 ==> n.min <= max && (count + c > n.min ==> count + (e.s.len - i) <= max)
    ensures j in EndsRep(e, n, count, max, i)
    decreases n, 0, c
  {
    hide Ends, Matches, EndsRepAll;
    if c > 0 {
      var m :| e.At(m) && Matches(e, n.child, i, m) && MatchesTimes(e, n, c - 1, m, j);
      EndsIffMatches(e, n.child, i, m);
      if m == i && count + c > n.min {
        RepComplete(e, n, count, max, c - 1, i, j);  // drop the empty iteration
      } else {
        RepComplete(e, n, count + 1, max, c - 1, m, j);
        assert j in EndsAfter(e, n, count, max, i, m);
        RepAllMember(e, n, count, max, i, Ends(e, n.child, i), j);
      }
    }
  }

  // ---------- The whole search ----------

  datatype Answer = Found(caps: seq<int>) | NoMatch | Stopped

  function Blank(p: Prog): seq<int> { seq((p.ncap + 1) * 2, _ => -1) }

  function SearchFrom(e: Env, i: int, st: State): (r: (Answer, State))
    requires e.Valid() && e.At(i)
    decreases e.s.len - i
  {
    var (ok, st1) := Exec(e, e.p.root, i, st.(caps := Blank(e.p)), KTop(i));
    if ok then (Found(st1.caps), st1)
    else if st1.aborted then (Stopped, st1)
    else if i == e.s.len then (NoMatch, st1)
    else SearchFrom(e, i + e.s.width(i), st1)
  }

  function Search(e: Env, gas: int): (r: (Answer, State))
    requires e.Valid()
  {
    var st := State(gas, false, 0, []);
    if e.interrupt.Some? && e.interrupt.value(0) then (Stopped, st)
    else if e.s.len > MAX_INPUT_LEN then (Stopped, st)
    else SearchFrom(e, 0, st)
  }

  /** No match of the pattern starts at a rune boundary that `from` reaches before `to`. */
  ghost predicate NoneBetween(e: Env, from: int, to: int)
    requires e.Valid() && e.At(from)
  {
    forall b, j | e.At(b) && e.At(j) && Boundary(e.s, from, b) && b < to :: !Matches(e, e.p.root, b, j)
  }

  /** What an answer of the search promises. */
  ghost predicate AnswerRight(e: Env, from: int, a: Answer, st: State)
    requires e.Valid() && e.At(from)
  {
    match a
    case Found(caps) =>
      && |caps| == (e.p.ncap + 1) * 2
      && e.At(caps[0]) && e.At(caps[1]) && Boundary(e.s, from, caps[0])
      && Matches(e, e.p.root, caps[0], caps[1])
      && Ends(e, e.p.root, caps[0]) != [] && caps[1] == Ends(e, e.p.root, caps[0])[0]
      && NoneBetween(e, from, caps[0])
    case NoMatch => NoneBetween(e, from, e.s.len + 1)
    case Stopped => st.gas == 0 || Interruptible(e) || e.s.len > MAX_INPUT_LEN
  }

  lemma {:induction false} FirstTop(e: Env, ends: seq<int>, start: int)
    requires e.Valid() && Within(ends, 0, e.s.len)
    ensures First(e, ends, KTop(start)) == if ends == [] then None else Some(ends[0])
  {}

  lemma {:induction false} SearchFromRight(e: Env, i: int, st: State)
    requires e.Valid() && e.At(i) && Plain(e.p.root) && !st.aborted
    ensures AnswerRight(e, i, SearchFrom(e, i, st).0, SearchFrom(e, i, st).1)
    decreases e.s.len - i
  {
    hide Exec, Ends, Matches;
    var st0 := st.(caps := Blank(e.p));
    var (ok, st1) := Exec(e, e.p.root, i, st0, KTop(i));
    ExecRight(e, e.p.root, i, st0, KTop(i));
    FirstTop(e, Ends(e, e.p.root, i), i);
    BoundaryRises(e.s, i);
    if ok {
      EndsIffMatches(e, e.p.root, i, st1.caps[1]);
    } else if !st1.aborted {
      forall j | e.At(j) ensures !Matches(e, e.p.root, i, j) { EndsIffMatches(e, e.p.root, i, j); }
      if i < e.s.len { SearchFromRight(e, i + e.s.width(i), st1); }
    }
  }

  /** Soundness, completeness and leftmost choice of the search, on every pattern without
      back references, subject, gas allowance and interrupt schedule. */
  lemma SearchRight(e: Env, gas: int)
    requires e.Valid() && Plain(e.p.root)
    ensures AnswerRight(e, 0, Search(e, gas).0, Search(e, gas).1)
  {
    if !(e.interrupt.Some? && e.interrupt.value(0)) && e.s.len <= MAX_INPUT_LEN {
      SearchFromRight(e, 0, State(gas, false, 0, []));
    }
  }

  /** Gas decides whether there is an answer, never which one. */
  lemma GasOnlyStops(e: Env, g1: int, g2: int)
    requires e.Valid() && Plain(e.p.root)
    requires !Search(e, g1).0.Stopped? && !Search(e, g2).0.Stopped?
    ensures var a, b := Search(e, g1).0, Search(e, g2).0;
            (a == b == NoMatch) ||
            (a.Found? && b.Found? && 2 <= |a.caps| == |b.caps| &&
             a.caps[0] == b.caps[0] && a.caps[1] == b.caps[1])
  {
    SearchRight(e, g1);
    SearchRight(e, g2);
  }
}

/** The matcher as it runs: the same search by methods that update the run in place. */
module RegexpRun {
  import opened Options
  import opened Regexp

  /** One run: gas, abort flag and step counter are fields, captures a fixed buffer. */
  class Run {
    const e: Env
    const caps: array<int>
    var gas: int
    var aborted: bool
    var steps: nat

    constructor (e: Env, gas: int)
      ensures this.e == e && fresh(caps) && caps.Length == (e.p.ncap + 1) * 2
      ensures this.gas == gas && !aborted && steps == 0
    {
      this.e, this.gas, aborted, steps := e, gas, false, 0;
      caps := new int[(e.p.ncap + 1) * 2](_ => -1);
    }

    function St(): State
      reads this, caps
    {
      State(gas, aborted, steps, caps[..])
    }

    method Charge(n: int) returns (ok: bool)
      requires n > 0
      modifies this`gas, this`aborted
      ensures (ok, St()) == Regexp.Charge(old(St()), n)
    {
      if aborted { return false; }
      if gas <= n {
        gas, aborted := 0, true;
        return false;
      }
      gas := gas - n;
      return true;
    }

    method Enter() returns (ok: bool)
      modifies this`gas, this`aborted, this`steps
      ensures (ok, St()) == Regexp.Enter(e, old(St()))
    {
      if aborted { return false; }
      steps := steps + 1;
      if e.interrupt.Some? && steps % 256 == 0 {
        if e.interrupt.value(steps) {
          aborted := true;
          return false;
        }
      }
      ok := Charge(GAS_NODE);
    }

    method SetCap(c: nat, a: int, b: int)
      modifies caps
      ensures St() == old(St()).(caps := Regexp.SetCap(old(caps[..]), c, a, b))
    {
      if c * 2 + 1 < caps.Length { caps[c * 2], caps[c * 2 + 1] := a, b; }
    }

    method Exec(n: Node, pos: int, k: Cont) returns (ok: bool)
      requires e.Valid() && e.At(pos) && ContOk(e, k)
      modifies this`gas, this`aborted, this`steps, caps
      ensures (ok, St()) == Regexp.Exec(e, n, pos, old(St()), k)
      decreases Fuel(St()), 0
    {
      hide Regexp.Charge, HasExact, Accepts, AnchorHolds, MaxIter, BackEnd, Regexp.Resume, Regexp.Take, Regexp.ExecAlt,
           Regexp.LookBehind;
      var go := Enter();
      if !go { return false; }
      match n {
        case Empty => ok := Resume(k, pos);
        case Lit(_) | Dot | Cls(_) =>
          if pos >= e.s.len || !Accepts(e, n, e.s.rune(pos)) { return false; }
          ok := Resume(k, pos + e.s.width(pos));
        case Concat(kids) => ok := Resume(KSeq(kids, 0, k), pos);
        case Alt(kids) => ok := ExecAlt(kids, pos, k);
        case Repeat(_, _, _, _) => ok := Take(n, 0, MaxIter(e, n, pos), pos, k);
        case Cap(c, inner) =>
          var (oldS, oldE) := OldCap(caps[..], c);
          ok := Exec(inner, pos, KCap(c, pos, oldS, oldE, k));
        case Look(inner, neg, behind) =>
          var found;
          if behind { found := LookBehind(inner, pos); } else { found := Exec(inner, pos, KAny); }
          if aborted || found == neg { return false; }
          ok := Resume(k, pos);
        case Back(c) =>
          var end := BackEnd(e, caps[..], c, pos);
          if end.None? { return false; }
          ok := Resume(k, end.value);
        case Anchor(kind) =>
          if !AnchorHolds(e, kind, pos) { return false; }
          ok := Resume(k, pos);
      }
    }

    method ExecAlt(kids: seq<Node>, pos: int, k: Cont) returns (ok: bool)
      requires e.Valid() && e.At(pos) && ContOk(e, k)
      modifies this`gas, this`aborted, this`steps, caps
      ensures (ok, St()) == Regexp.ExecAlt(e, kids, 0, pos, old(St()), k)
      decreases Fuel(St()), 2
    {
      var idx := 0;
      while idx < |kids|
        invariant idx <= |kids| && Fuel(St()) <= Fuel(old(St()))
        invariant Regexp.ExecAlt(e, kids, 0, pos, old(St()), k) == Regexp.ExecAlt(e, kids, idx, pos, St(), k)
      {
        if idx > 0 {
          var go := Charge(GAS_BACKTRACK);
          if !go { return false; }
        }
        ok := Exec(kids[idx], pos, k);
        if ok { return true; }
        if aborted { return false; }
        idx := idx + 1;
      }
      return false;
    }

    method Take(n: Node, count: int, max: int, pos: int, k: Cont) returns (ok: bool)
      requires e.Valid() && e.At(pos) && ContOk(e, k) && n.Repeat?
      modifies this`gas, this`aborted, this`steps, caps
      ensures (ok, St()) == Regexp.Take(e, n, count, max, pos, old(St()), k)
      decreases Fuel(St()), 0
    {
      var go := Charge(GAS_BACKTRACK);
      if !go { return false; }
      if n.lazy {
        if count >= n.min {
          ok := Resume(k, pos);
          if ok { return true; }
        }
        if count == max { return false; }
        ok := Exec(n.child, pos, KRep(n, count, max, pos, k));
        return;
      }
      if count == max {
        ok := Resume(k, pos);
        return;
      }
      var matched := false;
      if count < max { matched := Exec(n.child, pos, KRep(n, count, max, pos, k)); }
      if matched { return true; }
      if aborted { return false; }
      if count >= n.min {
        ok := Resume(k, pos);
        return;
      }
      return false;
    }

    method LookBehind(inner: Node, pos: int) returns (found: bool)
      requires e.Valid() && e.At(pos)
      modifies this`gas, this`aborted, this`steps, caps
      ensures (found, St()) == Regexp.LookBehind(e, inner, 0, pos, old(St()))
      decreases Fuel(St()), 2
    {
      var start := 0;
      while start <= pos
        invariant e.At(start) && Fuel(St()) <= Fuel(old(St()))
        invariant Regexp.LookBehind(e, inner, 0, pos, old(St())) == Regexp.LookBehind(e, inner, start, pos, St())
        decreases e.s.len - start
      {
        found := Exec(inner, start, KEndAt(pos));
        if found { return true; }
        if aborted { return false; }
        if start == pos { return false; }
        start := start + e.s.width(start);
      }
      return false;
    }

    method Resume(k: Cont, pos: int) returns (ok: bool)
      requires e.Valid() && e.At(pos) && ContOk(e, k)
      modifies this`gas, this`aborted, this`steps, caps
      ensures (ok, St()) == Regexp.Resume(e, k, pos, old(St()))
      decreases Fuel(St()), 1, k
    {
      match k {
        case KTop(start) =>
          SetCap(0, start, pos);
          return true;
        case KAny => return true;
        case KEndAt(at) => return pos == at;
        case KSeq(kids, i, k') =>
          if i == |kids| { ok := Resume(k', pos); } else { ok := Exec(kids[i], pos, KSeq(kids, i + 1, k')); }
        case KRep(rep, count, max, from, k') =>
          if pos == from && count >= rep.min {
            if rep.lazy { return false; }
            ok := Resume(k', pos);
          } else {
            ok := Take(rep, count + 1, max, pos, k');
          }
        case KCap(c, start, oldS, oldE, k') =>
          SetCap(c, start, pos);
          ok := Resume(k', pos);
          if !ok { SetCap(c, oldS, oldE); }
      }
    }

    /** The search loop over start positions. */
    method SearchLoop() returns (a: Answer)
      requires e.Valid() && caps.Length == (e.p.ncap + 1) * 2
      modifies this`gas, this`aborted, this`steps, caps
      ensures (a, St()) == SearchFrom(e, 0, old(St()))
    {
      var i := 0;
      while true
        invariant e.At(i) && SearchFrom(e, 0, old(St())) == SearchFrom(e, i, St())
        decreases e.s.len - i
      {
        forall j | 0 <= j < caps.Length { caps[j] := -1; }
        assert caps[..] == Blank(e.p);
        var ok := Exec(e.p.root, i, KTop(i));
        if ok { return Found(caps[..]); }
        if aborted { return Stopped; }
        if i == e.s.len { break; }
        i := i + e.s.width(i);
      }
      return NoMatch;
    }
  }

  const DEFAULT_GAS := 8_000_000

  /** The entry point; a missing allowance is the default one. */
  method FindSubmatchIndex(e: Env, gas: Option<int>) returns (a: Answer)
    requires e.Valid()
    ensures a == Search(e, if gas.None? then DEFAULT_GAS else gas.value).0
  {
    if e.interrupt.Some? && e.interrupt.value(0) { return Stopped; }
    if e.s.len > MAX_INPUT_LEN { return Stopped; }
    var g := if gas.None? then DEFAULT_GAS else gas.value;
    var run := new Run(e, g);
    a := run.SearchLoop();
    assert SearchFrom(e, 0, State(g, false, 0, [])) == SearchFrom(e, 0, State(g, false, 0, Blank(e.p)));
  }
}
