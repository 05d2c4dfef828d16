/** The analysis behind fast search (optimize_node_left in Dependencies/oniguruma5/regcomp.c): a
    literal or a set of bytes every match has to contain, and how far from its start. */
module Optimize {
  import opened Regint
  import opened Regparse
  import opened Machine

  const OPT_EXACT_MAXLEN := 24

  /** MinMaxLen */
  datatype Mml = Mml(min: Distance, max: Distance)

  /** OptExactInfo; a literal of length 0 is no information. lost: the length field holds a negative
      number, the bytes are those of s. */
  datatype Exact = Exact(mmd: Mml, reachEnd: bool, s: seq<byte>, lost: bool)

  /** OptMapInfo; the empty set is no information. */
  datatype ByteMap = ByteMap(mmd: Mml, bytes: set<byte>)

  /** NodeOptInfo. star, starMl: ANCHOR_ANYCHAR_STAR and ANCHOR_ANYCHAR_STAR_ML in the left anchor.
      exb: a literal where the node begins, exm: one further on, expr: one that a look-ahead asks for. */
  datatype Opt = Opt(len: Mml, star: bool, starMl: bool, exb: Exact, exm: Exact, expr: Exact, byteMap: ByteMap)

  const ZERO := Mml(0, 0)
  const NO_EXACT := Exact(ZERO, false, [], false)
  const NO_MAP := ByteMap(ZERO, {})

  // ----- weights: they choose between sound candidates -----

  const BYTE_VALUES: seq<nat> := [
    5, 1, 1, 1, 1, 1, 1, 1, 1, 10, 10, 1, 1, 10, 1, 1,
    1, 1, 1, 1, 1, 1, 1, 1, 1, 1, 1, 1, 1, 1, 1, 1,
    12, 4, 7, 4, 4, 4, 4, 4, 4, 5, 5, 5, 5, 5, 5, 5,
    6, 6, 6, 6, 6, 6, 6, 6, 6, 6, 5, 5, 5, 5, 5, 5,
    5, 6, 6, 6, 6, 7, 6, 6, 6, 6, 6, 6, 6, 6, 6, 6,
    6, 6, 6, 6, 6, 6, 6, 6, 6, 6, 6, 5, 6, 5, 5, 5,
    5, 6, 6, 6, 6, 7, 6, 6, 6, 6, 6, 6, 6, 6, 6, 6,
    6, 6, 6, 6, 6, 6, 6, 6, 6, 6, 6, 5, 5, 5, 5, 1]

  const NEAR_VALUES: seq<nat> := [1000, 500, 333, 250, 200, 167, 143, 125, 111, 100]

  /** About 1000 / (max - min + 1). */
  const DIST_VALUES: seq<nat> := NEAR_VALUES + [
    91, 83, 77, 71, 67, 63, 59, 56, 53, 50,
    48, 45, 43, 42, 40, 38, 37, 36, 34, 33,
    32, 31, 30, 29, 29, 28, 27, 26, 26, 25,
    24, 24, 23, 23, 22, 22, 21, 21, 20, 20,
    20, 19, 19, 19, 18, 18, 18, 17, 17, 17,
    16, 16, 16, 16, 15, 15, 15, 15, 14, 14,
    14, 14, 14, 14, 13, 13, 13, 13, 13, 13,
    12, 12, 12, 12, 12, 12, 11, 11, 11, 11,
    11, 11, 11, 11, 11, 10, 10, 10, 10, 10]

  function MapPositionValue(b: byte): nat {
    if b < |BYTE_VALUES| then BYTE_VALUES[b] else 4
  }

  /** OptMapInfo.value */
  function MapValue(bytes: set<byte>, n: nat): nat
    requires n <= 256
  {
    if n == 0 then 0 else MapValue(bytes, n - 1) + if n - 1 in bytes then MapPositionValue(n - 1) else 0
  }

  function DistanceValue(m: Mml): nat {
    if m.max == INFINITE_DISTANCE then 0
    else
      var d := m.max - m.min;
      if 0 <= d < |DIST_VALUES| then DIST_VALUES[d] else 1
  }

  /** comp_distance_value: positive when the second one is better. */
  function CompDistanceValue(d1: Mml, d2: Mml, v1: int, v2: int): int {
    if v2 <= 0 then -1
    else if v1 <= 0 then 1
    else
      var w1, w2 := v1 * DistanceValue(d1), v2 * DistanceValue(d2);
      if w2 > w1 then 1
      else if w2 < w1 then -1
      else if d2.min < d1.min then 1
      else if d2.min > d1.min then -1
      else 0
  }

  /** OptExactInfo.len */
  function Len(e: Exact): int { if e.lost then -1 else |e.s| }

  function SelectExact(now: Exact, alt: Exact): (r: Exact)
    ensures r == now || (r == alt && alt.s != [])
  {
    if alt.s == [] then now
    else if now.s == [] then alt
    else
      var short := Len(now) <= 2 && Len(alt) <= 2;
      var v1 := if short then MapPositionValue(alt.s[0]) + (if Len(now) > 1 then 5 else 0) else Len(now);
      var v2 := if short then MapPositionValue(now.s[0]) + (if Len(alt) > 1 then 5 else 0) else Len(alt);
      if CompDistanceValue(now.mmd, alt.mmd, v1 * 2, v2 * 2) > 0 then alt else now
  }

  function SelectMap(now: ByteMap, alt: ByteMap): (r: ByteMap)
    ensures r == now || (r == alt && alt.bytes != {})
  {
    var w1, w2 := MapValue(now.bytes, 256), MapValue(alt.bytes, 256);
    if alt.bytes == {} then now
    else if now.bytes == {} then alt
    else if w1 == 0 || w2 == 0 then now
    else if CompDistanceValue(now.mmd, alt.mmd, 0x8000 / w1, 0x8000 / w2) > 0 then alt else now
  }

  /** comp_opt_exact_or_map_info */
  function CompExactOrMap(e: Exact, m: ByteMap): int {
    var v := MapValue(m.bytes, 256);
    if v == 0 then -1 else CompDistanceValue(e.mmd, m.mmd, 20 * Len(e) * 2, 20 * 5 * 2 / v)
  }

  // ----- merging -----

  function AddMml(a: Mml, b: Mml): Mml { Mml(DistanceAdd(a.min, b.min), DistanceAdd(a.max, b.max)) }

  function AltMml(a: Mml, b: Mml): Mml {
    Mml(if a.min > b.min then b.min else a.min, if a.max < b.max then b.max else a.max)
  }

  /** The part of s that still fits behind n bytes. */
  function Fitting(s: seq<byte>, n: nat): (r: seq<byte>)
    ensures r <= s
  {
    if n >= OPT_EXACT_MAXLEN then [] else if n + |s| <= OPT_EXACT_MAXLEN then s else s[..OPT_EXACT_MAXLEN - n]
  }

  /** concat_opt_exact_info */
  function ConcatExact(a: Exact, b: Exact): Exact {
    var fit := Fitting(b.s, |a.s|);
    Exact(a.mmd, fit == b.s && b.reachEnd, a.s + fit, false)
  }

  function CommonPrefix(a: seq<byte>, b: seq<byte>): (r: seq<byte>)
    ensures r <= a && r <= b
  {
    if a == [] || b == [] || a[0] != b[0] then [] else [a[0]] + CommonPrefix(a[1..], b[1..])
  }

  /** alt_merge_opt_exact_info */
  function AltExact(a: Exact, b: Exact): Exact {
    if a.s == [] || b.s == [] || a.mmd != b.mmd then NO_EXACT
    else if a.lost || b.lost then Exact(a.mmd, false, [], false)
    else
      var c := CommonPrefix(a.s, b.s);
      Exact(a.mmd, a.reachEnd && b.reachEnd && c == a.s && c == b.s, c, false)
  }

  /** alt_merge_opt_map_info */
  function AltMap(a: ByteMap, b: ByteMap): ByteMap {
    if a.bytes == {} then a
    else if b.bytes == {} || a.mmd.max < b.mmd.min then NO_MAP
    else ByteMap(AltMml(a.mmd, b.mmd), a.bytes + b.bytes)
  }

  /** The look-ahead literal, cut to what the next item can take: a length past the range of int comes
      out negative. */
  function Cut(e: Exact, max: Distance): (r: Exact)
    ensures r.mmd == e.mmd && r.reachEnd == e.reachEnd && r.s <= e.s
  {
    if max > 0x7fff_ffff then e.(lost := true) else if |e.s| > max then e.(s := e.s[..max]) else e
  }

  /** concat_left_node_opt_info: first the literals of the items themselves. */
  function ConcatItems(a: Opt, b: Opt): Opt {
    var keep := b.len.max == 0;
    var exb := if Len(b.exb) > 0 && a.exb.reachEnd then ConcatExact(a.exb, b.exb)
      else a.exb.(reachEnd := a.exb.reachEnd && keep);
    var joined := Len(b.exb) > 0 && !a.exb.reachEnd && a.exm.reachEnd;
    var exm := if joined then ConcatExact(a.exm, b.exb) else a.exm.(reachEnd := a.exm.reachEnd && keep);
    var exb' := if Len(b.exb) > 0 && (a.exb.reachEnd || a.exm.reachEnd) then NO_EXACT else b.exb;
    Opt(AddMml(a.len, b.len),
        a.star || (a.len.max == 0 && b.star), a.starMl || (a.len.max == 0 && b.starMl),
        exb, SelectExact(SelectExact(exm, exb'), b.exm), a.expr, SelectMap(a.byteMap, b.byteMap))
  }

  function ConcatLeft(a: Opt, b: Opt): Opt {
    var c := ConcatItems(a, b);
    if Len(a.expr) > 0 then
      if b.len.max > 0 then
        var cut := Cut(a.expr, b.len.max);
        if cut.mmd.max == 0 then c.(expr := cut, exb := SelectExact(c.exb, cut))
        else c.(expr := cut, exm := SelectExact(c.exm, cut))
      else c
    else if Len(b.expr) > 0 then c.(expr := b.expr)
    else c
  }

  /** alt_merge_node_opt_info */
  function AltMerge(a: Opt, b: Opt): Opt {
    Opt(AltMml(a.len, b.len), a.star && b.star, a.starMl && b.starMl,
        AltExact(a.exb, b.exb), AltExact(a.exm, b.exm), AltExact(a.expr, b.expr), AltMap(a.byteMap, b.byteMap))
  }

  // ----- optimize_node_left -----

  /** The cleared information with the position of the node. */
  function Bound(env: Mml): Opt {
    Opt(ZERO, false, false, Exact(env, false, [], false), NO_EXACT, Exact(env, false, [], false), ByteMap(env, {}))
  }

  function ClassMap(n: Node): set<byte>
    requires n.CType?
  {
    set b: byte | IsWord(b) != n.not
  }

  function Max0(n: int): nat { if n < 0 then 0 else n }

  /** lower - 1 copies of a literal that is the whole body, as far as they fit. */
  function Copied(e: Exact, body: Exact, i: nat, lower: nat): (r: Exact)
    decreases Max0(lower - i)
  {
    if i < lower && |e.s| < OPT_EXACT_MAXLEN then Copied(ConcatExact(e, body), body, i + 1, lower)
    else if i < lower then e.(reachEnd := false)
    else e
  }

  function RepeatExact(b: Exact, lower: nat): Exact {
    if Len(b) > 0 && b.reachEnd then Copied(b, b, 2, lower) else b
  }

  function QuantLen(b: Mml, q: Rep): Mml {
    Mml(DistanceMultiply(b.min, q.lower),
        if Infinite(q.upper) then (if b.max > 0 then INFINITE_DISTANCE else 0)
          else DistanceMultiply(b.max, Max0(q.upper)))
  }

  function OptQuant(t: Node, q: Rep, b: Opt, env: Mml, ml: bool): Opt {
    var len := QuantLen(b.len, q);
    if q.lower == 0 then
      var any := Infinite(q.upper) && env.max == 0 && t.AnyChar? && q.greedy;
      Bound(env).(len := len, star := any && !ml, starMl := any && ml)
    else
      var fixed := q.lower == q.upper;
      var exb := RepeatExact(b.exb, q.lower);
      b.(len := len, exb := exb.(reachEnd := exb.reachEnd && fixed),
         exm := b.exm.(reachEnd := b.exm.reachEnd && fixed && q.lower <= 1))
  }

  /** (?=...) passes on what its target has to contain; the other look-arounds pass on nothing. */
  function OptLook(k: LookKind, b: Opt, env: Mml): Opt {
    if !k.PrecRead? then Bound(env)
    else
      var e := if Len(b.exb) > 0 then b.exb else if Len(b.exm) > 0 then b.exm else Bound(env).expr;
      Bound(env).(expr := e.(reachEnd := false),
                  byteMap := if b.byteMap.bytes != {} then b.byteMap else ByteMap(env, {}))
  }

  function OptNode(n: Node, env: Mml, ml: bool): Opt
    decreases n, 1
  {
    match n
    case Str(s) =>
      var fit := Fitting(s, 0);
      var len := if |s| <= INFINITE_DISTANCE then |s| else INFINITE_DISTANCE;
      Bound(env).(exb := Exact(env, fit == s, fit, false), byteMap := ByteMap(env, if s == [] then {} else {s[0]}),
                  len := Mml(len, len))
    case CClass(bs, neg, mbuf, _) =>
      if mbuf.Some? || neg then Bound(env).(len := Mml(1, 1))
      else Bound(env).(byteMap := ByteMap(env, bs), len := Mml(1, 1))
    case CType(_) => Bound(env).(byteMap := ByteMap(env, ClassMap(n)), len := Mml(1, 1))
    case AnyChar => Bound(env).(len := Mml(1, 1))
    case List(ns) => OptList(ns, Bound(env), env, ml)
    case Alt(ns) => OptAlt(ns, env, ml)
    case Quant(t, q) => OptQuant(t, q, OptNode(t, env, ml), env, ml)
    case Group(_, b) => OptNode(b, env, ml)
    case OptionNode(ml', b) => OptNode(b, env, ml')
    case Atomic(_, b) => OptNode(b, env, ml)
    case Anchor(_) => Bound(env)
    case Look(k, _, b) => OptLook(k, OptNode(b, env, ml), env)
  }

  /** The items of a list one after the other: a is what is known of those before, env their position. */
  function OptList(ns: Nodes, a: Opt, env: Mml, ml: bool): Opt
    decreases ns, 0
  {
    var b := OptNode(ns.left, env, ml);
    match ns
    case Last(_) => ConcatLeft(a, b)
    case Cons(_, rest) => OptList(rest, ConcatLeft(a, b), AddMml(env, b.len), ml)
  }

  function OptAlt(ns: Nodes, env: Mml, ml: bool): Opt
    decreases ns, 0
  {
    match ns
    case Last(n) => OptNode(n, env, ml)
    case Cons(n, rest) => OptAltFrom(rest, OptNode(n, env, ml), env, ml)
  }

  function OptAltFrom(ns: Nodes, a: Opt, env: Mml, ml: bool): Opt
    decreases ns, 0
  {
    var b := AltMerge(a, OptNode(ns.left, env, ml));
    match ns
    case Last(_) => b
    case Cons(_, rest) => OptAltFrom(rest, b, env, ml)
  }

  // ----- set_optimize_info_from_tree -----

  /** SearchRefused: the literal with a negative length was chosen, and copying it fails (ONIGERR_MEMORY). */
  datatype Method = SearchNone | SearchExact(s: seq<byte>) | SearchMap(bytes: set<byte>) | SearchRefused

  /** The search part of regex_t. */
  datatype Info = Info(how: Method, dmin: Distance, dmax: Distance, threshold: nat, star: bool, starMl: bool)

  function InfoOf(n: Node, ml: bool): Info {
    var o := OptNode(n, ZERO, ml);
    var e := SelectExact(o.exb, o.exm);
    var literal := Len(o.exb) > 0 || Len(o.exm) > 0;
    var byMap := o.byteMap.bytes != {} && (!literal || CompExactOrMap(e, o.byteMap) > 0);
    if byMap then
      Info(SearchMap(o.byteMap.bytes), o.byteMap.mmd.min, o.byteMap.mmd.max,
           if o.byteMap.mmd.min == INFINITE_DISTANCE then 0 else o.byteMap.mmd.min + 1, o.star, o.starMl)
    else if literal && e.lost then Info(SearchRefused, 0, 0, 0, o.star, o.starMl)
    else if literal then
      Info(SearchExact(e.s), e.mmd.min, e.mmd.max,
           if e.mmd.min == INFINITE_DISTANCE then 0 else e.mmd.min + |e.s|, o.star, o.starMl)
    else Info(SearchNone, 0, 0, 0, o.star, o.starMl)
  }
}
