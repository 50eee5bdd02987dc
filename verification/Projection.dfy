/** The source rewrite of `instrument_source`: in generated straight-line code, the first of two
    products with a shared input is delayed to the second, its weight view saved beforehand.

    Names are bound to buffers and several names may be bound to one buffer, so that a check on
    names and a fact about buffers are different things. */
module Projection {
  import opened Options

  type Name = nat

  /** The weight shapes the rewrite looks for; every other product is left alone. */
  datatype Shape = Wide | Narrow | Other

  /** An argument of a product as it is written: a name, or an expression over one. */
  datatype Operand = Plain(name: Name) | View(name: Name, how: nat)

  datatype Stmt =
    | Alloc(name: Name)
    | Alias(name: Name, source: Name)
    | Del(name: Name)
    | Call(fn: nat, ins: seq<Name>, outs: seq<Name>)
    | Mm(x: Operand, w: Name, shape: Shape, out: Operand)
    | Proj(x: Operand, q: Name, a: Name, y: Operand, z: Operand)

  // ---- names ----

  datatype Names = Names(env: map<Name, nat>, next: nat)

  predicate Bound(n: Names, names: seq<Name>) { forall i :: 0 <= i < |names| ==> names[i] in n.env }

  /** The bindings after a statement; `None` where an unbound name stops the program. */
  function Bind(n: Names, c: Stmt): Option<Names> {
    match c
    case Alloc(a) => Some(Names(n.env[a := n.next], n.next + 1))
    case Alias(a, b) => if b in n.env then Some(n.(env := n.env[a := n.env[b]])) else None
    case Del(a) => if a in n.env then Some(n.(env := n.env - {a})) else None
    case Call(_, ins, outs) => if Bound(n, ins) && Bound(n, outs) then Some(n) else None
    case Mm(x, w, _, out) => if x.name in n.env && w in n.env && out.name in n.env then Some(n) else None
    case Proj(x, q, a, y, z) =>
      if x.name in n.env && q in n.env && a in n.env && y.name in n.env && z.name in n.env then Some(n) else None
  }

  function BindAll(n: Names, p: seq<Stmt>): Option<Names>
    decreases |p|
  {
    if p == [] then Some(n)
    else
      match Bind(n, p[0])
      case None => None
      case Some(t) => BindAll(t, p[1..])
  }

  /** Buffers are handed out by counting, so a new one is nobody's. */
  predicate Fresh(n: Names) { forall a :: a in n.env ==> n.env[a] < n.next }

  // ---- memory ----

  /** What kernels compute, and how an expression views or fills a buffer: unknown functions. */
  datatype Semantics = Semantics(
    product: (Shape, int, int) -> int, kernel: (nat, seq<int>, nat, int) -> int,
    view: (nat, int) -> int, into: (nat, int, int) -> int)

  /** A kernel the rewrite does not know, with what it was given. */
  datatype Launch = Called(fn: nat, vals: seq<int>) | Multiplied(a: int, b: int)

  datatype Memory = Memory(store: map<nat, int>, log: seq<Launch>)

  function At(mem: Memory, buffer: nat): int { if buffer in mem.store then mem.store[buffer] else 0 }

  function Write(mem: Memory, buffer: nat, v: int): Memory { mem.(store := mem.store[buffer := v]) }

  function Logged(mem: Memory, e: Launch): Memory { mem.(log := mem.log + [e]) }

  function Loaded(m: Semantics, x: Operand, v: int): int {
    match x case Plain(_) => v case View(_, how) => m.view(how, v)
  }

  /** What a buffer holding `was` holds once `v` is written to the operand. */
  function Filled(m: Semantics, out: Operand, was: int, v: int): int {
    match out case Plain(_) => v case View(_, how) => m.into(how, was, v)
  }

  function Values(n: Names, mem: Memory, names: seq<Name>): (v: seq<int>)
    requires Bound(n, names)
    ensures |v| == |names| && forall i :: 0 <= i < |v| ==> v[i] == At(mem, n.env[names[i]])
  {
    seq(|names|, i requires 0 <= i < |names| => At(mem, n.env[names[i]]))
  }

  /** The first `k` outputs of a kernel. */
  function WriteOuts(m: Semantics, n: Names, mem: Memory, fn: nat, vals: seq<int>, outs: seq<Name>, k: nat): Memory
    requires k <= |outs| && Bound(n, outs)
  {
    if k == 0 then mem
    else
      var t := WriteOuts(m, n, mem, fn, vals, outs, k - 1);
      Write(t, n.env[outs[k - 1]], m.kernel(fn, vals, k - 1, At(t, n.env[outs[k - 1]])))
  }

  /** A product of the value at buffer `x` by that at `w`, into buffer `out`. */
  function Multiply(m: Semantics, mem: Memory, a: Operand, x: nat, w: nat, shape: Shape, o: Operand, out: nat): Memory {
    Write(mem, out, Filled(m, o, At(mem, out), m.product(shape, Loaded(m, a, At(mem, x)), At(mem, w))))
  }

  function Effect(m: Semantics, n: Names, mem: Memory, c: Stmt): Memory
    requires Bind(n, c).Some?
  {
    match c
    case Alloc(_) => Write(mem, n.next, 0)
    case Alias(_, _) => mem
    case Del(_) => mem
    case Call(fn, ins, outs) =>
      var vals := Values(n, mem, ins);
      WriteOuts(m, n, Logged(mem, Called(fn, vals)), fn, vals, outs, |outs|)
    case Mm(x, w, shape, out) =>
      var known := if shape.Other? then Logged(mem, Multiplied(Loaded(m, x, At(mem, n.env[x.name])), At(mem, n.env[w]))) else mem;
      Multiply(m, known, x, n.env[x.name], n.env[w], shape, out, n.env[out.name])
    case Proj(x, q, a, y, z) =>
      var t := Multiply(m, mem, x, n.env[x.name], n.env[q], Wide, y, n.env[y.name]);
      Multiply(m, t, x, n.env[x.name], n.env[a], Narrow, z, n.env[z.name])
  }

  datatype State = State(n: Names, mem: Memory)

  function Exec(m: Semantics, s: State, c: Stmt): Option<State> {
    match Bind(s.n, c)
    case None => None
    case Some(n) => Some(State(n, Effect(m, s.n, s.mem, c)))
  }

  function Run(m: Semantics, s: State, p: seq<Stmt>): Option<State>
    decreases |p|
  {
    if p == [] then Some(s)
    else
      match Exec(m, s, p[0])
      case None => None
      case Some(t) => Run(m, t, p[1..])
  }

  lemma {:induction false} RunNames(m: Semantics, s: State, p: seq<Stmt>)
    ensures Run(m, s, p).Some? <==> BindAll(s.n, p).Some?
    ensures Run(m, s, p).Some? ==> Run(m, s, p).value.n == BindAll(s.n, p).value
    decreases |p|
  {
    if p != [] {
      match Exec(m, s, p[0]) {
        case None =>
        case Some(t) => RunNames(m, t, p[1..]);
      }
    }
  }

  lemma {:induction false} RunConcat(m: Semantics, s: State, p: seq<Stmt>, q: seq<Stmt>)
    ensures Run(m, s, p + q) == match Run(m, s, p) case None => None case Some(t) => Run(m, t, q)
    decreases |p|
  {
    if p == [] {
      assert p + q == q;
    } else {
      assert (p + q)[1..] == p[1..] + q;
      match Exec(m, s, p[0]) {
        case None =>
        case Some(t) => RunConcat(m, t, p[1..], q);
      }
    }
  }

  lemma RunOne(m: Semantics, s: State, c: Stmt)
    ensures Run(m, s, [c]) == Exec(m, s, c)
  {
    assert [c][1..] == [];
  }

  // ---- the rewrite ----

  predicate Mentions(c: Stmt, a: Name) {
    match c
    case Alloc(b) => b == a
    case Alias(b, source) => b == a || source == a
    case Del(b) => b == a
    case Call(_, ins, outs) => a in ins || a in outs
    case Mm(x, w, _, out) => x.name == a || w == a || out.name == a
    case Proj(x, q, v, y, z) => x.name == a || q == a || v == a || y.name == a || z.name == a
  }

  predicate Mentioned(p: seq<Stmt>, a: Name) { exists i :: 0 <= i < |p| && Mentions(p[i], a) }

  predicate IsCandidate(c: Stmt) { c.Mm? && c.shape != Other }

  /** The text of an operand is looked for among the names: an expression is never found. */
  predicate SeenIn(p: seq<Stmt>, x: Operand) { x.Plain? && Mentioned(p, x.name) }

  /** The two products may be joined, as far as the text tells. */
  predicate SitesMatch(c: Stmt, between: seq<Stmt>, d: Stmt) {
    && c.Mm? && d.Mm? && c.shape == Wide && d.shape == Narrow && c.x == d.x
    && !SeenIn(between, c.x) && !SeenIn(between, c.out)
  }

  predicate Joinable(p: seq<Stmt>, i: nat, j: nat, tmp: Name) {
    i < j < |p| && SitesMatch(p[i], p[i + 1..j], p[j]) && !Mentioned(p, tmp)
  }

  /** The names a statement is written with. */
  ghost function NamesIn(c: Stmt): set<Name> {
    match c
    case Alloc(a) => {a}
    case Alias(a, b) => {a, b}
    case Del(a) => {a}
    case Call(_, ins, outs) => (set a | a in ins) + (set a | a in outs)
    case Mm(x, w, _, out) => {x.name, w, out.name}
    case Proj(x, q, a, y, z) => {x.name, q, a, y.name, z.name}
  }

  /** A pair is joined exactly when a wide product is followed by a narrow one of the same input, no
      statement between them is written with the input or the first output where these are plain
      names, and the new name is nowhere in use. */
  lemma JoinableIff(p: seq<Stmt>, i: nat, j: nat, tmp: Name)
    requires i < j < |p|
    ensures Joinable(p, i, j, tmp)
            <==> && p[i].Mm? && p[j].Mm? && p[i].shape.Wide? && p[j].shape.Narrow? && p[i].x == p[j].x
                 && (forall k :: i < k < j && p[i].x.Plain? ==> p[i].x.name !in NamesIn(p[k]))
                 && (forall k :: i < k < j && p[i].out.Plain? ==> p[i].out.name !in NamesIn(p[k]))
                 && (forall k :: 0 <= k < |p| ==> tmp !in NamesIn(p[k]))
  {
    MentionedBetween(p, 0, |p|, tmp);
    assert p[0..|p|] == p;
    if p[i].Mm? {
      MentionedBetween(p, i + 1, j, p[i].x.name);
      MentionedBetween(p, i + 1, j, p[i].out.name);
    }
  }

  lemma MentionedBetween(p: seq<Stmt>, a: nat, b: nat, name: Name)
    requires a <= b <= |p|
    ensures Mentioned(p[a..b], name) <==> exists k :: a <= k < b && name in NamesIn(p[k])
  {
    forall k | 0 <= k < |p| ensures Mentions(p[k], name) <==> name in NamesIn(p[k]) {}
    if k :| a <= k < b && name in NamesIn(p[k]) {
      assert Mentions(p[a..b][k - a], name);
    }
  }

  /** The second site in the rewritten program. */
  function Both(c: Stmt, d: Stmt, tmp: Name): seq<Stmt>
    requires c.Mm? && d.Mm?
  {
    [Proj(d.x, tmp, d.w, c.out, d.out), Del(tmp)]
  }

  function Joined(p: seq<Stmt>, i: nat, j: nat, tmp: Name): seq<Stmt>
    requires i < j < |p| && p[i].Mm? && p[j].Mm?
  {
    p[..i] + [Alias(tmp, p[i].w)] + p[i + 1..j] + Both(p[i], p[j], tmp) + p[j + 1..]
  }

  datatype Outcome = Unchanged | Rewritten(program: seq<Stmt>, first: nat, second: nat) | Refused

  predicate OnlyCandidates(p: seq<Stmt>, i: nat, j: nat) {
    && i < j < |p| && IsCandidate(p[i]) && IsCandidate(p[j])
    && forall k :: 0 <= k < |p| && IsCandidate(p[k]) ==> k == i || k == j
  }

  /** `found` lists the candidates among the first `n` statements, in order. */
  predicate FoundAll(p: seq<Stmt>, found: seq<nat>, n: nat) {
    && (forall q :: 0 <= q < |found| ==> found[q] < n <= |p| && IsCandidate(p[found[q]]))
    && (forall q, h :: 0 <= q < h < |found| ==> found[q] < found[h])
    && (forall h: nat :: h < n <= |p| && IsCandidate(p[h]) ==> h in found)
  }

  method Candidates(p: seq<Stmt>) returns (found: seq<nat>)
    ensures FoundAll(p, found, |p|)
  {
    found := [];
    for k := 0 to |p|
      invariant FoundAll(p, found, k)
    {
      if IsCandidate(p[k]) {
        found := found + [k];
      }
    }
  }

  lemma FirstThree(p: seq<Stmt>, found: seq<nat>)
    requires FoundAll(p, found, |p|)
    ensures |found| >= 3 ==> found[0] < found[1] < found[2] && forall q :: 0 <= q < 3 ==> IsCandidate(p[found[q]])
  {}

  lemma PairIsAll(p: seq<Stmt>, found: seq<nat>, i: nat, j: nat)
    requires FoundAll(p, found, |p|) && OnlyCandidates(p, i, j)
    ensures found == [i, j]
  {
    assert i in found && j in found;
    FirstThree(p, found);
  }

  lemma TwoAreAll(p: seq<Stmt>, found: seq<nat>)
    requires FoundAll(p, found, |p|) && |found| == 2
    ensures OnlyCandidates(p, found[0], found[1])
  {}

  /** One generated function: no candidate leaves it alone, anything but a checked pair is refused. */
  method Instrument(p: seq<Stmt>, tmp: Name) returns (r: Outcome)
    ensures r.Unchanged? <==> forall k :: 0 <= k < |p| ==> !IsCandidate(p[k])
    ensures r.Rewritten? ==> OnlyCandidates(p, r.first, r.second) && Joinable(p, r.first, r.second, tmp)
                             && r.program == Joined(p, r.first, r.second, tmp)
    ensures r.Refused? ==> forall i: nat, j: nat :: !(OnlyCandidates(p, i, j) && Joinable(p, i, j, tmp))
  {
    var found := Candidates(p);
    forall i: nat, j: nat | OnlyCandidates(p, i, j) ensures found == [i, j] {
      PairIsAll(p, found, i, j);
    }
    if |found| == 0 {
      return Unchanged;
    }
    assert IsCandidate(p[found[0]]);
    if |found| != 2 {
      return Refused;
    }
    var i, j := found[0], found[1];
    TwoAreAll(p, found);
    if !Joinable(p, i, j, tmp) {
      return Refused;
    }
    return Rewritten(Joined(p, i, j, tmp), i, j);
  }

  // ---- what happens to buffers ----

  predicate Writes(n: Names, c: Stmt, buffer: nat) {
    match c
    case Alloc(_) => n.next == buffer
    case Alias(_, _) => false
    case Del(_) => false
    case Call(_, _, outs) => exists k :: 0 <= k < |outs| && BoundTo(n, outs[k], buffer)
    case Mm(_, _, _, out) => BoundTo(n, out.name, buffer)
    case Proj(_, _, _, y, z) => BoundTo(n, y.name, buffer) || BoundTo(n, z.name, buffer)
  }

  predicate Reads(n: Names, c: Stmt, buffer: nat) {
    match c
    case Alloc(_) => false
    case Alias(_, _) => false
    case Del(_) => false
    case Call(_, ins, _) => exists k :: 0 <= k < |ins| && BoundTo(n, ins[k], buffer)
    case Mm(x, w, _, _) => BoundTo(n, x.name, buffer) || BoundTo(n, w, buffer)
    case Proj(x, q, a, _, _) => BoundTo(n, x.name, buffer) || BoundTo(n, q, buffer) || BoundTo(n, a, buffer)
  }

  predicate BoundTo(n: Names, a: Name, buffer: nat) { a in n.env && n.env[a] == buffer }

  predicate NeverWritten(n: Names, p: seq<Stmt>, buffer: nat)
    decreases |p|
  {
    p == [] || (!Writes(n, p[0], buffer)
                && match Bind(n, p[0]) case None => true case Some(t) => NeverWritten(t, p[1..], buffer))
  }

  predicate NeverRead(n: Names, p: seq<Stmt>, buffer: nat)
    decreases |p|
  {
    p == [] || (!Reads(n, p[0], buffer)
                && match Bind(n, p[0]) case None => true case Some(t) => NeverRead(t, p[1..], buffer))
  }

  /** Both sites mean the same buffers by the operands they share, and in between the input and the
      weight are not written, the first output neither read nor written. */
  predicate SafeToDelay(n: Names, c: Stmt, between: seq<Stmt>)
    requires c.Mm? && Bind(n, c).Some?
  {
    && NeverWritten(n, between, n.env[c.x.name]) && NeverWritten(n, between, n.env[c.w])
    && NeverWritten(n, between, n.env[c.out.name]) && NeverRead(n, between, n.env[c.out.name])
    && match BindAll(n, between)
       case None => true
       case Some(t) => BoundTo(t, c.x.name, n.env[c.x.name]) && BoundTo(t, c.out.name, n.env[c.out.name])
  }

  // ---- why the meaning is kept ----

  /** The first site: the saved name, the three buffers with what they hold, and the value the
      product leaves in the third. */
  datatype First = First(tmp: Name, x: nat, w: nat, y: nat, xv: int, wv: int, yv: int, v: int)

  function WithName(n: Names, tmp: Name, buffer: nat): Names { n.(env := n.env[tmp := buffer]) }

  /** The two programs between the sites: `t` has the saved weight and not yet the product. */
  predicate Delayed(s: State, t: State, f: First) {
    && f.tmp !in s.n.env && t.n == WithName(s.n, f.tmp, f.w) && s.mem == Write(t.mem, f.y, f.v)
    && At(t.mem, f.x) == f.xv && At(t.mem, f.w) == f.wv && At(t.mem, f.y) == f.yv
    && Fresh(s.n) && f.x < s.n.next && f.w < s.n.next && f.y < s.n.next
  }

  predicate Spares(n: Names, c: Stmt, f: First) {
    !Writes(n, c, f.x) && !Writes(n, c, f.w) && !Writes(n, c, f.y) && !Reads(n, c, f.y)
  }

  /** The memories of the two programs. */
  predicate MemDelayed(a: Memory, b: Memory, f: First) {
    a == Write(b, f.y, f.v) && At(b, f.x) == f.xv && At(b, f.w) == f.wv && At(b, f.y) == f.yv
  }

  lemma WriteDelayed(a: Memory, b: Memory, f: First, buffer: nat, v: int)
    requires MemDelayed(a, b, f) && buffer != f.x && buffer != f.y && buffer != f.w
    ensures MemDelayed(Write(a, buffer, v), Write(b, buffer, v), f) && At(a, buffer) == At(b, buffer)
  {}

  lemma {:induction false} OutsDelayed(m: Semantics, n: Names, k: Names, a: Memory, b: Memory, f: First,
                                       fn: nat, vals: seq<int>, outs: seq<Name>, j: nat)
    requires MemDelayed(a, b, f) && Bound(n, outs) && Bound(k, outs) && j <= |outs|
    requires forall i :: 0 <= i < |outs| ==>
               n.env[outs[i]] == k.env[outs[i]] && n.env[outs[i]] != f.x && n.env[outs[i]] != f.y && n.env[outs[i]] != f.w
    ensures MemDelayed(WriteOuts(m, n, a, fn, vals, outs, j), WriteOuts(m, k, b, fn, vals, outs, j), f)
  {
    if j > 0 {
      OutsDelayed(m, n, k, a, b, f, fn, vals, outs, j - 1);
      var a1, b1 := WriteOuts(m, n, a, fn, vals, outs, j - 1), WriteOuts(m, k, b, fn, vals, outs, j - 1);
      var buffer := n.env[outs[j - 1]];
      WriteDelayed(a1, b1, f, buffer, m.kernel(fn, vals, j - 1, At(a1, buffer)));
    }
  }

  lemma CallDelayed(m: Semantics, n: Names, k: Names, a: Memory, b: Memory, f: First, c: Stmt)
    requires c.Call? && MemDelayed(a, b, f) && k == WithName(n, f.tmp, f.w) && !Mentions(c, f.tmp) && Spares(n, c, f)
    requires Bind(n, c).Some? && Bind(k, c).Some?
    ensures MemDelayed(Effect(m, n, a, c), Effect(m, k, b, c), f)
  {
    assert forall i :: 0 <= i < |c.ins| ==> c.ins[i] in c.ins && c.ins[i] != f.tmp && !BoundTo(n, c.ins[i], f.y);
    assert forall i :: 0 <= i < |c.outs| ==> c.outs[i] in c.outs && c.outs[i] != f.tmp && !BoundTo(n, c.outs[i], f.y);
    assert forall i :: 0 <= i < |c.outs| ==> !BoundTo(n, c.outs[i], f.x) && !BoundTo(n, c.outs[i], f.w);
    var vals := Values(n, a, c.ins);
    assert vals == Values(k, b, c.ins);
    OutsDelayed(m, n, k, Logged(a, Called(c.fn, vals)), Logged(b, Called(c.fn, vals)), f, c.fn, vals, c.outs, |c.outs|);
  }

  lemma MultiplyDelayed(m: Semantics, a: Memory, b: Memory, f: First, x: Operand, i: nat, w: nat, shape: Shape, o: Operand, out: nat)
    requires MemDelayed(a, b, f) && i != f.y && w != f.y && out != f.x && out != f.y && out != f.w
    ensures MemDelayed(Multiply(m, a, x, i, w, shape, o, out), Multiply(m, b, x, i, w, shape, o, out), f)
    ensures At(a, i) == At(b, i) && At(a, w) == At(b, w)
  {
    WriteDelayed(a, b, f, out, Filled(m, o, At(a, out), m.product(shape, Loaded(m, x, At(a, i)), At(a, w))));
  }

  lemma EffectDelayed(m: Semantics, n: Names, k: Names, a: Memory, b: Memory, f: First, c: Stmt)
    requires MemDelayed(a, b, f) && k == WithName(n, f.tmp, f.w) && !Mentions(c, f.tmp) && Spares(n, c, f)
    requires Bind(n, c).Some? && Bind(k, c).Some? && f.x < n.next && f.w < n.next && f.y < n.next
    ensures MemDelayed(Effect(m, n, a, c), Effect(m, k, b, c), f)
  {
    match c
    case Alloc(_) => WriteDelayed(a, b, f, n.next, 0);
    case Alias(_, _) =>
    case Del(_) =>
    case Call(_, _, _) => CallDelayed(m, n, k, a, b, f, c);
    case Mm(x, w, shape, out) =>
      MultiplyDelayed(m, a, b, f, x, n.env[x.name], n.env[w], shape, out, n.env[out.name]);
      if shape.Other? {
        var e := Multiplied(Loaded(m, x, At(a, n.env[x.name])), At(a, n.env[w]));
        MultiplyDelayed(m, Logged(a, e), Logged(b, e), f, x, n.env[x.name], n.env[w], shape, out, n.env[out.name]);
      }
    case Proj(x, q, v, y, z) =>
      MultiplyDelayed(m, a, b, f, x, n.env[x.name], n.env[q], Wide, y, n.env[y.name]);
      MultiplyDelayed(m, Multiply(m, a, x, n.env[x.name], n.env[q], Wide, y, n.env[y.name]),
                      Multiply(m, b, x, n.env[x.name], n.env[q], Wide, y, n.env[y.name]), f,
                      x, n.env[x.name], n.env[v], Narrow, z, n.env[z.name]);
  }

  /** A name that a statement does not mention does not matter to it. */
  lemma BindWith(n: Names, c: Stmt, tmp: Name, buffer: nat)
    requires !Mentions(c, tmp)
    ensures Bind(WithName(n, tmp, buffer), c)
            == match Bind(n, c) case None => None case Some(t) => Some(WithName(t, tmp, buffer))
    ensures forall b :: Writes(WithName(n, tmp, buffer), c, b) == Writes(n, c, b)
    ensures tmp !in n.env && Bind(n, c).Some? ==> tmp !in Bind(n, c).value.env
  {
    var k := WithName(n, tmp, buffer);
    match c
    case Alloc(a) => assert n.env[a := n.next][tmp := buffer] == k.env[a := n.next];
    case Alias(a, b) => assert b in n.env ==> n.env[a := n.env[b]][tmp := buffer] == k.env[a := n.env[b]];
    case Del(a) => assert (n.env - {a})[tmp := buffer] == k.env - {a};
    case Call(_, ins, outs) => {
      assert forall i :: 0 <= i < |ins| ==> ins[i] in ins && ins[i] != tmp;
      assert forall i :: 0 <= i < |outs| ==> outs[i] in outs && outs[i] != tmp;
      assert Bound(k, ins) == Bound(n, ins) && Bound(k, outs) == Bound(n, outs);
      assert forall i, b :: 0 <= i < |outs| ==> BoundTo(k, outs[i], b) == BoundTo(n, outs[i], b);
    }
    case Mm(_, _, _, _) =>
    case Proj(_, _, _, _, _) =>
  }

  lemma FreshStep(n: Names, c: Stmt)
    requires Fresh(n) && Bind(n, c).Some?
    ensures Fresh(Bind(n, c).value) && n.next <= Bind(n, c).value.next
  {}

  lemma StepDelayed(m: Semantics, s: State, t: State, c: Stmt, f: First)
    requires Delayed(s, t, f) && !Mentions(c, f.tmp) && Spares(s.n, c, f)
    ensures Exec(m, s, c).Some? == Exec(m, t, c).Some?
    ensures Exec(m, s, c).Some? ==> Delayed(Exec(m, s, c).value, Exec(m, t, c).value, f)
  {
    BindWith(s.n, c, f.tmp, f.w);
    if Bind(s.n, c).Some? {
      EffectDelayed(m, s.n, t.n, s.mem, t.mem, f, c);
      FreshStep(s.n, c);
    }
  }

  predicate SparedBy(n: Names, p: seq<Stmt>, f: First) {
    NeverWritten(n, p, f.x) && NeverWritten(n, p, f.w) && NeverWritten(n, p, f.y) && NeverRead(n, p, f.y)
  }

  lemma TailMentions(p: seq<Stmt>, a: Name)
    requires p != [] && !Mentioned(p, a)
    ensures !Mentions(p[0], a) && !Mentioned(p[1..], a)
  {
    assert forall i :: 0 <= i < |p| - 1 ==> p[1..][i] == p[i + 1];
  }

  /** Between the sites, the rewritten program stays one product behind the original. */
  lemma {:induction false} BetweenDelayed(m: Semantics, s: State, t: State, p: seq<Stmt>, f: First)
    requires Delayed(s, t, f) && !Mentioned(p, f.tmp) && SparedBy(s.n, p, f)
    ensures Run(m, s, p).Some? == Run(m, t, p).Some?
    ensures Run(m, s, p).Some? ==> Delayed(Run(m, s, p).value, Run(m, t, p).value, f)
    decreases |p|
  {
    if p != [] {
      TailMentions(p, f.tmp);
      StepDelayed(m, s, t, p[0], f);
      if Exec(m, s, p[0]).Some? {
        BetweenDelayed(m, Exec(m, s, p[0]).value, Exec(m, t, p[0]).value, p[1..], f);
      }
    }
  }

  /** Catching up: both products at the second site give the original's state. */
  lemma CatchUp(m: Semantics, s: State, t: State, c: Stmt, d: Stmt, f: First)
    requires c.Mm? && d.Mm? && c.x == d.x && c.shape == Wide && d.shape == Narrow
    requires Delayed(s, t, f) && !Mentions(c, f.tmp) && !Mentions(d, f.tmp)
    requires BoundTo(s.n, c.x.name, f.x) && BoundTo(s.n, c.out.name, f.y)
    requires f.v == Filled(m, c.out, f.yv, m.product(Wide, Loaded(m, c.x, f.xv), f.wv))
    ensures Run(m, t, Both(c, d, f.tmp)) == Exec(m, s, d)
  {
    var both := Proj(d.x, f.tmp, d.w, c.out, d.out);
    assert Multiply(m, t.mem, c.x, f.x, f.w, Wide, c.out, f.y) == s.mem;
    RunConcat(m, t, [both], [Del(f.tmp)]);
    assert Both(c, d, f.tmp) == [both] + [Del(f.tmp)];
    RunOne(m, t, both);
    if Exec(m, s, d).Some? {
      var u := Exec(m, t, both).value;
      assert u.n == t.n && t.n.env - {f.tmp} == s.n.env;
      RunOne(m, u, Del(f.tmp));
    }
  }

  function OldSites(c: Stmt, between: seq<Stmt>, d: Stmt): seq<Stmt> { [c] + between + [d] }

  function NewSites(c: Stmt, between: seq<Stmt>, d: Stmt, tmp: Name): seq<Stmt>
    requires c.Mm? && d.Mm?
  {
    [Alias(tmp, c.w)] + between + Both(c, d, tmp)
  }

  /** What `SitesMatch` and the choice of the saved name give. */
  predicate SitesOk(n: Names, c: Stmt, between: seq<Stmt>, d: Stmt, tmp: Name) {
    && SitesMatch(c, between, d) && Fresh(n)
    && !Mentioned(between, tmp) && !Mentions(c, tmp) && !Mentions(d, tmp) && tmp !in n.env
  }

  function FirstOf(m: Semantics, s: State, c: Stmt, tmp: Name): First
    requires c.Mm? && Bind(s.n, c).Some?
  {
    var x, w, y := s.n.env[c.x.name], s.n.env[c.w], s.n.env[c.out.name];
    First(tmp, x, w, y, At(s.mem, x), At(s.mem, w), At(s.mem, y),
          Filled(m, c.out, At(s.mem, y), m.product(Wide, Loaded(m, c.x, At(s.mem, x)), At(s.mem, w))))
  }

  /** Both programs, stage by stage. */
  lemma SiteRuns(m: Semantics, s: State, c: Stmt, between: seq<Stmt>, d: Stmt, tmp: Name)
    requires SitesOk(s.n, c, between, d, tmp) && Bind(s.n, c).Some?
    ensures var s1, t1 := Exec(m, s, c).value, State(WithName(s.n, tmp, s.n.env[c.w]), s.mem);
            && Delayed(s1, t1, FirstOf(m, s, c, tmp)) && s1.n == s.n
            && Run(m, s, OldSites(c, between, d))
               == (match Run(m, s1, between) case None => None case Some(s2) => Exec(m, s2, d))
            && Run(m, s, NewSites(c, between, d, tmp))
               == (match Run(m, t1, between) case None => None case Some(t2) => Run(m, t2, Both(c, d, tmp)))
  {
    RunConcat(m, s, [c] + between, [d]);
    RunConcat(m, s, [c], between);
    RunConcat(m, s, [Alias(tmp, c.w)] + between, Both(c, d, tmp));
    RunConcat(m, s, [Alias(tmp, c.w)], between);
    RunOne(m, s, c);
    RunOne(m, s, Alias(tmp, c.w));
    var s1 := Exec(m, s, c).value;
    match Run(m, s1, between) {
      case None =>
      case Some(s2) => RunOne(m, s2, d);
    }
  }

  /** From the first site to just after the second. */
  lemma SitesAgree(m: Semantics, s: State, c: Stmt, between: seq<Stmt>, d: Stmt, tmp: Name)
    requires SitesOk(s.n, c, between, d, tmp) && Bind(s.n, c).Some? && SafeToDelay(s.n, c, between)
    ensures Run(m, s, NewSites(c, between, d, tmp)) == Run(m, s, OldSites(c, between, d))
  {
    var f := FirstOf(m, s, c, tmp);
    SiteRuns(m, s, c, between, d, tmp);
    var s1, t1 := Exec(m, s, c).value, State(WithName(s.n, tmp, s.n.env[c.w]), s.mem);
    BetweenDelayed(m, s1, t1, between, f);
    RunNames(m, s1, between);
    if Run(m, s1, between).Some? {
      CatchUp(m, Run(m, s1, between).value, Run(m, t1, between).value, c, d, f);
    }
  }

  lemma {:induction false} NameKept(n: Names, p: seq<Stmt>, a: Name)
    requires !Mentioned(p, a) && BindAll(n, p).Some?
    ensures forall b :: BoundTo(BindAll(n, p).value, a, b) <==> BoundTo(n, a, b)
    decreases |p|
  {
    if p != [] {
      TailMentions(p, a);
      NameKept(Bind(n, p[0]).value, p[1..], a);
    }
  }

  lemma {:induction false} FreshKept(n: Names, p: seq<Stmt>)
    requires Fresh(n) && BindAll(n, p).Some?
    ensures Fresh(BindAll(n, p).value) && n.next <= BindAll(n, p).value.next
    decreases |p|
  {
    if p != [] {
      FreshStep(n, p[0]);
      FreshKept(Bind(n, p[0]).value, p[1..]);
    }
  }

  /** Where the first site stops the original, a plain unbound operand stops the rewritten program. */
  lemma BothStop(m: Semantics, s: State, c: Stmt, between: seq<Stmt>, d: Stmt, tmp: Name)
    requires SitesOk(s.n, c, between, d, tmp) && Bind(s.n, c).None? && c.x.Plain? && c.out.Plain?
    ensures Run(m, s, NewSites(c, between, d, tmp)) == Run(m, s, OldSites(c, between, d)) == None
  {
    RunConcat(m, s, [c] + between, [d]);
    RunConcat(m, s, [c], between);
    RunOne(m, s, c);
    RunConcat(m, s, [Alias(tmp, c.w)] + between, Both(c, d, tmp));
    RunConcat(m, s, [Alias(tmp, c.w)], between);
    RunOne(m, s, Alias(tmp, c.w));
    if c.w in s.n.env {
      var t1 := State(WithName(s.n, tmp, s.n.env[c.w]), s.mem);
      RunNames(m, t1, between);
      if Run(m, t1, between).Some? {
        NameKept(t1.n, between, c.x.name);
        NameKept(t1.n, between, c.out.name);
        var n2 := BindAll(t1.n, between).value;
        assert c.x.name in n2.env ==> BoundTo(n2, c.x.name, n2.env[c.x.name]);
        assert c.out.name in n2.env ==> BoundTo(n2, c.out.name, n2.env[c.out.name]);
      }
    }
  }

  // ---- whole programs ----

  predicate SafeSite(n: Names, c: Stmt, between: seq<Stmt>)
    requires c.Mm?
  {
    if Bind(n, c).Some? then SafeToDelay(n, c, between) else c.x.Plain? && c.out.Plain?
  }

  /** The rewrite keeps the meaning: from every state, the same final state, or the same stop. */
  lemma RewritePreserves(m: Semantics, s: State, p: seq<Stmt>, i: nat, j: nat, tmp: Name)
    requires Joinable(p, i, j, tmp) && tmp !in s.n.env && Fresh(s.n)
    requires BindAll(s.n, p[..i]).Some? ==> SafeSite(BindAll(s.n, p[..i]).value, p[i], p[i + 1..j])
    ensures Run(m, s, Joined(p, i, j, tmp)) == Run(m, s, p)
  {
    var pre, between, post := p[..i], p[i + 1..j], p[j + 1..];
    var before, after := OldSites(p[i], between, p[j]), NewSites(p[i], between, p[j], tmp);
    assert p == pre + before + post && Joined(p, i, j, tmp) == pre + after + post;
    RunConcat(m, s, pre + before, post);
    RunConcat(m, s, pre, before);
    RunConcat(m, s, pre + after, post);
    RunConcat(m, s, pre, after);
    RunNames(m, s, pre);
    if Run(m, s, pre).Some? {
      NotInPart(p, 0, i, tmp);
      NotInPart(p, i + 1, j, tmp);
      assert !Mentions(p[i], tmp) && !Mentions(p[j], tmp);
      AtFirstSite(s.n, pre, tmp);
      SitesSame(m, Run(m, s, pre).value, p[i], between, p[j], tmp);
    }
  }

  lemma AtFirstSite(n: Names, pre: seq<Stmt>, tmp: Name)
    requires !Mentioned(pre, tmp) && BindAll(n, pre).Some? && tmp !in n.env && Fresh(n)
    ensures tmp !in BindAll(n, pre).value.env && Fresh(BindAll(n, pre).value)
  {
    NameKept(n, pre, tmp);
    FreshKept(n, pre);
    var t := BindAll(n, pre).value;
    assert tmp in t.env ==> BoundTo(t, tmp, t.env[tmp]);
  }

  lemma SitesSame(m: Semantics, s: State, c: Stmt, between: seq<Stmt>, d: Stmt, tmp: Name)
    requires SitesOk(s.n, c, between, d, tmp) && SafeSite(s.n, c, between)
    ensures Run(m, s, NewSites(c, between, d, tmp)) == Run(m, s, OldSites(c, between, d))
  {
    if Bind(s.n, c).Some? {
      SitesAgree(m, s, c, between, d, tmp);
    } else {
      BothStop(m, s, c, between, d, tmp);
    }
  }

  lemma NotInPart(p: seq<Stmt>, a: nat, b: nat, n: Name)
    requires a <= b <= |p| && !Mentioned(p, n)
    ensures !Mentioned(p[a..b], n)
  {
    forall i | 0 <= i < b - a ensures !Mentions(p[a..b][i], n) {
      assert p[a..b][i] == p[a + i];
    }
  }

  // ---- when the meaning changes ----

  /** Nothing but kernels unknown to the rewrite. */
  predicate Foreign(p: seq<Stmt>) { forall k :: 0 <= k < |p| ==> !p[k].Proj? && !IsCandidate(p[k]) }

  /** Everything but the wide product writes 1, and expressions are transparent. */
  function Ones(wide: (int, int) -> int): Semantics {
    Semantics((shape: Shape, a, b) => if shape.Wide? then wide(a, b) else 1, (fn, vals, i, was) => 1,
              (how, v) => v, (how, was, v) => v)
  }

  predicate OutBound(n: Names, outs: seq<Name>, k: nat, b: nat)
    requires k <= |outs|
  {
    exists i :: 0 <= i < k && BoundTo(n, outs[i], b)
  }

  lemma {:induction false} OnesOuts(wide: (int, int) -> int, n: Names, mem: Memory, fn: nat, vals: seq<int>, outs: seq<Name>,
                                    k: nat, b: nat)
    requires k <= |outs| && Bound(n, outs)
    ensures var t := WriteOuts(Ones(wide), n, mem, fn, vals, outs, k);
            At(t, b) == (if OutBound(n, outs, k, b) then 1 else At(mem, b)) && t.log == mem.log
  {
    if k > 0 {
      OnesOuts(wide, n, mem, fn, vals, outs, k - 1, b);
      if OutBound(n, outs, k - 1, b) {
        var i :| 0 <= i < k - 1 && BoundTo(n, outs[i], b);
        assert OutBound(n, outs, k, b);
      }
      assert BoundTo(n, outs[k - 1], b) ==> OutBound(n, outs, k, b);
    }
  }

  lemma OnesStep(wide: (int, int) -> int, n: Names, mem: Memory, c: Stmt, b: nat)
    requires Bind(n, c).Some? && !c.Proj? && !IsCandidate(c)
    ensures At(Effect(Ones(wide), n, mem, c), b)
            == if !Writes(n, c, b) then At(mem, b) else if c.Alloc? then 0 else 1
  {
    if c.Call? {
      var vals := Values(n, mem, c.ins);
      OnesOuts(wide, n, Logged(mem, Called(c.fn, vals)), c.fn, vals, c.outs, |c.outs|, b);
    }
  }

  lemma {:induction false} OnesEnd(wide: (int, int) -> int, s: State, p: seq<Stmt>, b: nat)
    requires Foreign(p) && Run(Ones(wide), s, p).Some?
    ensures var v := At(Run(Ones(wide), s, p).value.mem, b);
            && (b < s.n.next ==> v == if NeverWritten(s.n, p, b) then At(s.mem, b) else 1)
            && (0 <= At(s.mem, b) <= 1 ==> 0 <= v <= 1)
    decreases |p|
  {
    if p != [] {
      OnesStep(wide, s.n, s.mem, p[0], b);
      OnesEnd(wide, Exec(Ones(wide), s, p[0]).value, p[1..], b);
    }
  }

  lemma {:induction false} NamesWith(n: Names, p: seq<Stmt>, tmp: Name, buffer: nat, b: nat)
    requires !Mentioned(p, tmp)
    ensures BindAll(WithName(n, tmp, buffer), p)
            == match BindAll(n, p) case None => None case Some(t) => Some(WithName(t, tmp, buffer))
    ensures NeverWritten(WithName(n, tmp, buffer), p, b) == NeverWritten(n, p, b)
    decreases |p|
  {
    if p != [] {
      TailMentions(p, tmp);
      BindWith(n, p[0], tmp, buffer);
      if Bind(n, p[0]).Some? {
        NamesWith(Bind(n, p[0]).value, p[1..], tmp, buffer, b);
      }
    }
  }

  /** The original gets past both sites. */
  predicate OriginalRuns(n: Names, c: Stmt, between: seq<Stmt>, d: Stmt) {
    Bind(n, c).Some? && BindAll(n, between).Some? && Bind(BindAll(n, between).value, d).Some?
  }

  /** The second product does not write over the first. */
  predicate OutputsDiffer(n: Names, c: Stmt, between: seq<Stmt>, d: Stmt)
    requires c.Mm? && d.Mm? && OriginalRuns(n, c, between, d)
  {
    var t := BindAll(n, between).value;
    t.env[d.out.name] != n.env[c.out.name] && !BoundTo(t, c.out.name, t.env[d.out.name])
  }

  predicate SiteChecks(n: Names, c: Stmt, between: seq<Stmt>, d: Stmt, tmp: Name) {
    SitesOk(n, c, between, d, tmp) && Foreign(between) && OriginalRuns(n, c, between, d) && OutputsDiffer(n, c, between, d)
  }

  predicate SameMeaning(m: Semantics, s: State, c: Stmt, between: seq<Stmt>, d: Stmt, tmp: Name)
    requires c.Mm? && d.Mm?
  {
    Run(m, s, NewSites(c, between, d, tmp)) == Run(m, s, OldSites(c, between, d))
  }

  /** What both programs leave, under such a semantics: in the buffer that the first output names at
      the second site, in the first output's own, and in the log. */
  lemma OnesRuns(wide: (int, int) -> int, mem: Memory, n: Names, c: Stmt, between: seq<Stmt>, d: Stmt, tmp: Name)
    returns (a: Memory, b: Memory)
    requires SiteChecks(n, c, between, d, tmp) && SameMeaning(Ones(wide), State(n, mem), c, between, d, tmp)
    ensures var x, w, y := n.env[c.x.name], n.env[c.w], n.env[c.out.name];
            var n2, s1 := BindAll(n, between).value, Write(mem, y, wide(At(mem, x), At(mem, w)));
            && Run(Ones(wide), State(n, s1), between) == Some(State(n2, a))
            && Run(Ones(wide), State(WithName(n, tmp, w), mem), between) == Some(State(WithName(n2, tmp, w), b))
            && c.out.name in n2.env && c.x.name in n2.env && a.log == b.log
            && (var x2, y2 := n2.env[c.x.name], n2.env[c.out.name];
                && At(a, y2) == wide(At(b, x2), At(b, w))
                && At(a, y) == if y2 == y then wide(At(b, x2), At(b, w)) else At(b, y))
  {
    var m, s := Ones(wide), State(n, mem);
    var w := n.env[c.w];
    var s1, t1 := Exec(m, s, c).value, State(WithName(n, tmp, w), mem);
    SiteRuns(m, s, c, between, d, tmp);
    RunNames(m, s1, between);
    RunNames(m, t1, between);
    NamesWith(n, between, tmp, w, 0);
    a, b := Run(m, s1, between).value.mem, Run(m, t1, between).value.mem;
    SecondSite(wide, Run(m, s1, between).value, Run(m, t1, between).value, c, d, tmp, n.env[c.out.name]);
  }

  lemma SecondSite(wide: (int, int) -> int, s: State, t: State, c: Stmt, d: Stmt, tmp: Name, y: nat)
    requires c.Mm? && d.Mm? && c.x == d.x && d.shape == Narrow && Bind(s.n, d).Some? && !Mentions(c, tmp) && !Mentions(d, tmp)
    requires tmp in t.n.env && t.n == WithName(s.n, tmp, t.n.env[tmp])
    requires s.n.env[d.out.name] != y && !BoundTo(s.n, c.out.name, s.n.env[d.out.name])
    requires Run(Ones(wide), t, Both(c, d, tmp)) == Exec(Ones(wide), s, d)
    ensures c.out.name in s.n.env && s.mem.log == t.mem.log
    ensures var x2, y2, v := s.n.env[c.x.name], s.n.env[c.out.name], At(t.mem, t.n.env[tmp]);
            && At(s.mem, y2) == wide(At(t.mem, x2), v)
            && At(s.mem, y) == if y2 == y then wide(At(t.mem, x2), v) else At(t.mem, y)
  {
    var m, both := Ones(wide), Proj(d.x, tmp, d.w, c.out, d.out);
    assert Both(c, d, tmp) == [both] + [Del(tmp)];
    RunConcat(m, t, [both], [Del(tmp)]);
    RunOne(m, t, both);
    var u := Exec(m, t, both).value;
    RunOne(m, u, Del(tmp));
    var p, q := Exec(m, s, d).value.mem, u.mem;
    var y2 := s.n.env[c.out.name];
    assert p == q && At(p, y2) == At(s.mem, y2) && At(p, y) == At(s.mem, y);
  }

  /** The first output's name still means its buffer, which is not written. */
  lemma OutputDecides(n: Names, c: Stmt, between: seq<Stmt>, d: Stmt, tmp: Name)
    requires SiteChecks(n, c, between, d, tmp)
    requires SameMeaning(Ones((a, b) => 5), State(n, Memory(map[], [])), c, between, d, tmp)
    ensures var y := n.env[c.out.name]; NeverWritten(n, between, y) && BoundTo(BindAll(n, between).value, c.out.name, y)
  {
    var a, b := OnesRuns((a, b) => 5, Memory(map[], []), n, c, between, d, tmp);
    var y, y2 := n.env[c.out.name], BindAll(n, between).value.env[c.out.name];
    OnesEnd((a, b) => 5, State(n, Write(Memory(map[], []), y, 5)), between, y2);
  }

  /** So does the input's. */
  lemma InputDecides(n: Names, c: Stmt, between: seq<Stmt>, d: Stmt, tmp: Name, y: nat, mem: Memory)
    requires SiteChecks(n, c, between, d, tmp) && y == n.env[c.out.name]
    requires NeverWritten(n, between, y) && BoundTo(BindAll(n, between).value, c.out.name, y)
    requires mem == Memory(map[n.env[c.x.name] := 7], []) && SameMeaning(Ones((a, b) => a), State(n, mem), c, between, d, tmp)
    ensures var x := n.env[c.x.name]; NeverWritten(n, between, x) && BoundTo(BindAll(n, between).value, c.x.name, x)
  {
    var a, b := OnesRuns((a, b) => a, mem, n, c, between, d, tmp);
    var x, x2, w := n.env[c.x.name], BindAll(n, between).value.env[c.x.name], n.env[c.w];
    OnesEnd((a, b) => a, State(n, Write(mem, y, 7)), between, y);
    OnesEnd((a, b) => a, State(WithName(n, tmp, w), mem), between, x2);
    NamesWith(n, between, tmp, w, x);
  }

  /** The weight is not written. */
  lemma WeightDecides(n: Names, c: Stmt, between: seq<Stmt>, d: Stmt, tmp: Name, y: nat, mem: Memory)
    requires SiteChecks(n, c, between, d, tmp) && y == n.env[c.out.name]
    requires NeverWritten(n, between, y) && BoundTo(BindAll(n, between).value, c.out.name, y)
    requires mem == Memory(map[n.env[c.w] := 7], []) && SameMeaning(Ones((a, b) => b), State(n, mem), c, between, d, tmp)
    ensures NeverWritten(n, between, n.env[c.w])
  {
    var a, b := OnesRuns((a, b) => b, mem, n, c, between, d, tmp);
    var w := n.env[c.w];
    OnesEnd((a, b) => b, State(n, Write(mem, y, 7)), between, y);
    OnesEnd((a, b) => b, State(WithName(n, tmp, w), mem), between, w);
    NamesWith(n, between, tmp, w, w);
  }

  /** What a kernel was given shows the difference. */
  lemma LogStep(wide: (int, int) -> int, n: Names, k: Names, a: Memory, b: Memory, c: Stmt, tmp: Name, w: nat, y: nat)
    requires !c.Proj? && !IsCandidate(c) && !Mentions(c, tmp) && k == WithName(n, tmp, w)
    requires Bind(n, c).Some? && Bind(k, c).Some? && At(a, y) != At(b, y) && |a.log| == |b.log|
    ensures var e, f := Effect(Ones(wide), n, a, c), Effect(Ones(wide), k, b, c);
            |e.log| == |f.log| && (a.log != b.log || Reads(n, c, y) ==> e.log != f.log)
  {
    if c.Call? {
      var u, v := Values(n, a, c.ins), Values(k, b, c.ins);
      OnesOuts(wide, n, Logged(a, Called(c.fn, u)), c.fn, u, c.outs, |c.outs|, y);
      OnesOuts(wide, k, Logged(b, Called(c.fn, v)), c.fn, v, c.outs, |c.outs|, y);
      if Reads(n, c, y) {
        var i :| 0 <= i < |c.ins| && BoundTo(n, c.ins[i], y);
        assert c.ins[i] in c.ins && u[i] != v[i];
      }
      LastDiffers(a.log, Called(c.fn, u), b.log, Called(c.fn, v));
    } else if c.Mm? {
      LastDiffers(a.log, Multiplied(At(a, n.env[c.x.name]), At(a, n.env[c.w])),
                  b.log, Multiplied(At(b, n.env[c.x.name]), At(b, n.env[c.w])));
    }
  }

  lemma LastDiffers(a: seq<Launch>, x: Launch, b: seq<Launch>, y: Launch)
    requires |a| == |b|
    ensures a != b || x != y ==> a + [x] != b + [y]
  {
    assert (a + [x])[..|a|] == a && (b + [y])[..|b|] == b;
    assert (a + [x])[|a|] == x && (b + [y])[|b|] == y;
  }

  lemma {:induction false} LogsEnd(wide: (int, int) -> int, s: State, t: State, p: seq<Stmt>, tmp: Name, w: nat, y: nat)
    requires Foreign(p) && !Mentioned(p, tmp) && t.n == WithName(s.n, tmp, w) && NeverWritten(s.n, p, y)
    requires At(s.mem, y) != At(t.mem, y) && |s.mem.log| == |t.mem.log|
    requires Run(Ones(wide), s, p).Some? && Run(Ones(wide), t, p).Some?
    ensures s.mem.log != t.mem.log || !NeverRead(s.n, p, y) ==>
              Run(Ones(wide), s, p).value.mem.log != Run(Ones(wide), t, p).value.mem.log
    decreases |p|
  {
    if p != [] {
      TailMentions(p, tmp);
      BindWith(s.n, p[0], tmp, w);
      LogStep(wide, s.n, t.n, s.mem, t.mem, p[0], tmp, w, y);
      OnesStep(wide, s.n, s.mem, p[0], y);
      OnesStep(wide, t.n, t.mem, p[0], y);
      LogsEnd(wide, Exec(Ones(wide), s, p[0]).value, Exec(Ones(wide), t, p[0]).value, p[1..], tmp, w, y);
    }
  }

  /** The first output is not read. */
  lemma ReadDecides(n: Names, c: Stmt, between: seq<Stmt>, d: Stmt, tmp: Name, y: nat, mem: Memory)
    requires SiteChecks(n, c, between, d, tmp) && y == n.env[c.out.name] && NeverWritten(n, between, y)
    requires mem == Memory(map[], []) && SameMeaning(Ones((a, b) => 5), State(n, mem), c, between, d, tmp)
    ensures NeverRead(n, between, y)
  {
    var a, b := OnesRuns((a, b) => 5, mem, n, c, between, d, tmp);
    var w := n.env[c.w];
    LogsEnd((a, b) => 5, State(n, Write(mem, y, 5)), State(WithName(n, tmp, w), mem), between, tmp, w, y);
  }

  /** Whatever the kernels compute and the buffers hold. */
  ghost predicate AlwaysSameMeaning(n: Names, c: Stmt, between: seq<Stmt>, d: Stmt, tmp: Name)
    requires c.Mm? && d.Mm?
  {
    forall m, mem :: SameMeaning(m, State(n, mem), c, between, d, tmp)
  }

  /** Exactly when the rewrite is right: the first product can be delayed for all kernels and all
      contents of the buffers if and only if its input and weight are not written in between, its
      output is neither read nor written, and both operands still mean the same buffers. */
  lemma DelayIsRightIff(n: Names, c: Stmt, between: seq<Stmt>, d: Stmt, tmp: Name)
    requires SiteChecks(n, c, between, d, tmp)
    ensures AlwaysSameMeaning(n, c, between, d, tmp) <==> SafeToDelay(n, c, between)
  {
    if AlwaysSameMeaning(n, c, between, d, tmp) {
      var y, empty := n.env[c.out.name], Memory(map[], []);
      var atInput, atWeight := Memory(map[n.env[c.x.name] := 7], []), Memory(map[n.env[c.w] := 7], []);
      assert SameMeaning(Ones((a, b) => 5), State(n, empty), c, between, d, tmp);
      OutputDecides(n, c, between, d, tmp);
      ReadDecides(n, c, between, d, tmp, y, empty);
      assert SameMeaning(Ones((a, b) => a), State(n, atInput), c, between, d, tmp);
      InputDecides(n, c, between, d, tmp, y, atInput);
      assert SameMeaning(Ones((a, b) => b), State(n, atWeight), c, between, d, tmp);
      WeightDecides(n, c, between, d, tmp, y, atWeight);
    } else {
      var m, mem :| !SameMeaning(m, State(n, mem), c, between, d, tmp);
      if SafeToDelay(n, c, between) {
        SitesAgree(m, State(n, mem), c, between, d, tmp);
      }
    }
  }

  // ---- the check on names is not enough ----

  /** The second site of the examples, and what stands between the sites. */
  function SecondSiteOf(x: Operand): Stmt { Mm(x, 5, Narrow, Plain(6)) }

  function CopyCall(): seq<Stmt> { [Call(0, [3], [4])] }

  /** Names: 0 input, 1 and 5 weights, 2 and 6 outputs, 3 and 4 read and written in between. */
  function ExampleNames(third: nat, fourth: nat): Names {
    Names(map[0 := 0, 1 := 1, 2 := 2, 3 := third, 4 := fourth, 5 := 5, 6 := 6], 7)
  }

  lemma ExampleChecks(x: Operand, third: nat, fourth: nat)
    requires (x == Plain(0) || x == View(4, 0)) && third < 7 && fourth < 7
    ensures SiteChecks(ExampleNames(third, fourth), Mm(x, 1, Wide, Plain(2)), CopyCall(), SecondSiteOf(x), 9)
    ensures BindAll(ExampleNames(third, fourth), CopyCall()) == Some(ExampleNames(third, fourth))
  {
    var n := ExampleNames(third, fourth);
    assert Bind(n, CopyCall()[0]) == Some(n) && CopyCall()[1..] == [];
  }

  /** The check passes, but name 3 is another name of the first output, which is read too early. */
  lemma SecondNameBreaks()
    ensures var c := Mm(Plain(0), 1, Wide, Plain(2));
            && SitesMatch(c, CopyCall(), SecondSiteOf(Plain(0)))
            && !AlwaysSameMeaning(ExampleNames(2, 4), c, CopyCall(), SecondSiteOf(Plain(0)), 9)
  {
    ExampleChecks(Plain(0), 2, 4);
    DelayIsRightIff(ExampleNames(2, 4), Mm(Plain(0), 1, Wide, Plain(2)), CopyCall(), SecondSiteOf(Plain(0)), 9);
    assert BoundTo(ExampleNames(2, 4), CopyCall()[0].ins[0], 2);
  }

  /** The check passes, but name 4 is another name of the saved weight, which is written too early. */
  lemma WrittenWeightBreaks()
    ensures var c := Mm(Plain(0), 1, Wide, Plain(2));
            && SitesMatch(c, CopyCall(), SecondSiteOf(Plain(0)))
            && !AlwaysSameMeaning(ExampleNames(3, 1), c, CopyCall(), SecondSiteOf(Plain(0)), 9)
  {
    ExampleChecks(Plain(0), 3, 1);
    DelayIsRightIff(ExampleNames(3, 1), Mm(Plain(0), 1, Wide, Plain(2)), CopyCall(), SecondSiteOf(Plain(0)), 9);
    assert BoundTo(ExampleNames(3, 1), CopyCall()[0].outs[0], 1);
  }

  /** The check passes because the shared input is an expression over name 4: that very name is
      written in between. */
  lemma ExpressionBreaks()
    ensures var c := Mm(View(4, 0), 1, Wide, Plain(2));
            && SitesMatch(c, CopyCall(), SecondSiteOf(View(4, 0))) && Mentioned(CopyCall(), c.x.name)
            && !AlwaysSameMeaning(ExampleNames(3, 4), c, CopyCall(), SecondSiteOf(View(4, 0)), 9)
  {
    ExampleChecks(View(4, 0), 3, 4);
    DelayIsRightIff(ExampleNames(3, 4), Mm(View(4, 0), 1, Wide, Plain(2)), CopyCall(), SecondSiteOf(View(4, 0)), 9);
    assert BoundTo(ExampleNames(3, 4), CopyCall()[0].outs[0], 4) && 4 in CopyCall()[0].outs;
    assert Mentions(CopyCall()[0], 4);
  }
}
