/** The hash table: bins of linked entries that behave as a finite map, through insertion, lookup,
    deletion and growth (Dependencies/oniguruma5/st.c). */
module HashTable {
  import opened Regint

  type Data = nat                 // st_data_t

  /** struct st_hash_type: compare(x, y) == 0 says that x and y have the same representative. */
  datatype HashType = HashType(rep: Data -> int, hash: Data -> nat)

  /** Equal keys hash equally. */
  ghost predicate Coherent(kind: HashType) {
    forall x: Data, y: Data :: kind.rep(x) == kind.rep(y) ==> kind.hash(x) == kind.hash(y)
  }

  const ST_DEFAULT_MAX_DENSITY := 5
  const MINSIZE := 8

  /** The table of primes holds 2^n + a for n from 3 to 30, then 0; these are the a. */
  const OFFSETS: seq<int> := [3, 3, 5, 3, 3, 27, 9, 9, 5, 3, 27, 43, 3, 45, 29, 3, 21, 7, 17, 15, 9, 43, 35, 15, 29, 3,
                              11, 85]

  function Power(i: nat): nat { if i == 0 then MINSIZE else 2 * Power(i - 1) }

  function Prime(i: nat): int
    requires i <= 28
  {
    if i < 28 then Power(i) + OFFSETS[i] else 0
  }

  /** newsize <<= 1 in 32 bits. */
  function Doubled(n: int): int { (2 * n + 0x8000_0000) % 0x1_0000_0000 - 0x8000_0000 }

  lemma Power0()
    ensures Power(0) == MINSIZE
  {
  }

  lemma PowerNext(i: nat)
    ensures Power(i + 1) == 2 * Power(i)
  {
  }

  lemma LastPower()
    ensures Power(27) == 0x4000_0000
  {
    assert Power(4) == 128;
    assert Power(8) == 2048;
    assert Power(12) == 0x8000;
    assert Power(16) == 0x8_0000;
    assert Power(20) == 0x80_0000;
    assert Power(24) == 0x800_0000;
  }

  lemma {:induction false} PowerFits(i: nat)
    requires i <= 27
    ensures Power(i) <= 0x4000_0000 && (i < 27 ==> Power(i) < 0x4000_0000)
    decreases 27 - i
  {
    if i == 27 { LastPower(); } else { PowerFits(i + 1); }
  }

  lemma PrimeAbove(i: nat)
    requires i < 28
    ensures Prime(i) >= Power(i) + 3
  {
    assert forall k :: 0 <= k < 28 ==> OFFSETS[k] >= 3;
  }

  /** new_size: the size of the table that belongs to the first power of two above the one asked for. */
  method NewSize(size: nat) returns (r: int)
    ensures size < 0x4000_0000 <==> r != -1
    ensures r != -1 ==> exists i: nat :: i < 28 && r == Prime(i) && Power(i) > size && (i == 0 || Power(i - 1) <= size)
    ensures r != -1 ==> r > size
  {
    hide Prime, Power;
    var i, newsize := 0, MINSIZE;
    Power0();
    LastPower();
    while i < 29
      invariant 0 <= i <= 29
      invariant i < 28 ==> newsize == Power(i) && (i > 0 ==> Power(i - 1) <= size)
      invariant i == 28 ==> newsize == -0x8000_0000
      invariant i >= 28 ==> newsize <= 0 && size >= 0x4000_0000
    {
      if i < 28 {
        PowerFits(i);
        PowerNext(i);
        PrimeAbove(i);
      }
      if newsize > size { return Prime(i); }
      newsize := Doubled(newsize);
      i := i + 1;
    }
    r := -1;
  }

  // ----- entries and chains -----

  class StEntry {
    var hash: nat
    var key: Data
    var record: Data
    var next: StEntry?

    constructor (hash: nat, key: Data, record: Data, next: StEntry?)
      ensures this.hash == hash && this.key == key && this.record == record && this.next == next
    {
      this.hash, this.key, this.record, this.next := hash, key, record, next;
    }
  }

  type Chain = seq<StEntry>

  ghost function At(chain: Chain, k: nat): StEntry? { if k < |chain| then chain[k] else null }

  /** Following next from the k-th entry on gives the rest of the chain. */
  ghost predicate LinkedFrom(chain: Chain, k: nat)
    requires k <= |chain|
    reads chain[k..]`next
  {
    forall j :: k <= j < |chain| ==> chain[j].next == At(chain, j + 1)
  }

  ghost predicate Linked(head: StEntry?, chain: Chain)
    reads chain`next
  {
    head == At(chain, 0) && LinkedFrom(chain, 0)
  }

  ghost predicate Distinct(chain: Chain) { forall j, k :: 0 <= j < k < |chain| ==> chain[j] != chain[k] }

  ghost predicate Within(chain: Chain, nodes: set<StEntry>) { forall e :: e in chain ==> e in nodes }

  ghost predicate AllIn(entries: map<int, StEntry>, nodes: set<StEntry>) {
    forall r :: r in entries ==> entries[r] in nodes
  }

  /** The entry is the one entry for its key. */
  ghost predicate Known(e: StEntry, kind: HashType, entries: map<int, StEntry>)
    reads e`key
  {
    kind.rep(e.key) in entries && entries[kind.rep(e.key)] == e
  }

  /** The entries of a chain belong to bin i of n. */
  ghost predicate Filed(chain: Chain, i: int, n: int, kind: HashType, entries: map<int, StEntry>)
    requires n > 0
    reads chain`key, chain`hash
  {
    Distinct(chain) && forall k :: 0 <= k < |chain| ==> Known(chain[k], kind, entries) && chain[k].hash % n == i
  }

  /** The entry for key class r, in the bin its hash asks for. */
  ghost predicate Placed(kind: HashType, r: int, e: StEntry, chains: seq<Chain>)
    requires |chains| > 0
    reads e`key, e`hash
  {
    kind.rep(e.key) == r && e.hash == kind.hash(e.key) && e in chains[e.hash % |chains|]
  }

  /** Every entry is in the chain of bin hash mod num_bins and only there, and keys are distinct. */
  ghost predicate Static(kind: HashType, chains: seq<Chain>, entries: map<int, StEntry>, nodes: set<StEntry>)
    reads nodes`key, nodes`hash
  {
    && |chains| > 0 && AllIn(entries, nodes)
    && (forall i :: 0 <= i < |chains| ==> Within(chains[i], nodes))
    && (forall i :: 0 <= i < |chains| ==> Filed(chains[i], i, |chains|, kind, entries))
    && (forall r :: r in entries ==> Placed(kind, r, entries[r], chains))
  }

  /** And the bins are linked as the chains say. */
  ghost predicate Table(kind: HashType, heads: seq<StEntry?>, chains: seq<Chain>, entries: map<int, StEntry>,
                        nodes: set<StEntry>)
    reads nodes`key, nodes`hash, nodes`next
  {
    && |heads| == |chains| && Static(kind, chains, entries, nodes)
    && forall i :: 0 <= i < |chains| ==> Linked(heads[i], chains[i])
  }

  /** The finite map: key class to key and record. */
  ghost function MapOf(entries: map<int, StEntry>, nodes: set<StEntry>): map<int, (Data, Data)>
    requires AllIn(entries, nodes)
    reads nodes`key, nodes`record
  {
    map r | r in entries :: (entries[r].key, entries[r].record)
  }

  lemma MapAt(entries: map<int, StEntry>, nodes: set<StEntry>, r: int)
    requires AllIn(entries, nodes)
    ensures r in MapOf(entries, nodes) <==> r in entries
    ensures r in entries ==> MapOf(entries, nodes)[r] == (entries[r].key, entries[r].record)
  {
  }

  lemma MapPush(entries: map<int, StEntry>, nodes: set<StEntry>, r: int, e: StEntry)
    requires AllIn(entries, nodes) && r !in entries
    ensures AllIn(entries[r := e], nodes + {e})
    ensures MapOf(entries[r := e], nodes + {e}) == MapOf(entries, nodes)[r := (e.key, e.record)]
  {
  }

  lemma TableEmpty(kind: HashType, n: nat)
    requires n > 0
    ensures Table(kind, seq(n, i => null), seq(n, i => []), map[], {})
  {
  }

  /** Different key classes have different entries. */
  lemma Alone(kind: HashType, chains: seq<Chain>, entries: map<int, StEntry>, nodes: set<StEntry>, r: int)
    requires Static(kind, chains, entries, nodes) && r in entries
    ensures forall x :: x in entries && x != r ==> entries[x] != entries[r]
  {
    assert Placed(kind, r, entries[r], chains);
    forall x | x in entries && x != r ensures entries[x] != entries[r] { assert Placed(kind, x, entries[x], chains); }
  }

  /** A chain with one more entry at the front. */
  lemma Fronted(e: StEntry, chain: Chain)
    requires Linked(e.next, chain)
    ensures Linked(e, [e] + chain)
  {
    var longer := [e] + chain;
    forall j | 0 <= j < |longer| ensures longer[j].next == At(longer, j + 1) {
      if j > 0 { assert chain[j - 1].next == At(chain, j); }
    }
  }

  /** The chains with one more entry. */
  lemma StaticPush(kind: HashType, chains: seq<Chain>, entries: map<int, StEntry>, nodes: set<StEntry>, r: int,
                   e: StEntry, b: nat)
    requires Static(kind, chains, entries, nodes) && r !in entries && e !in nodes
    requires kind.rep(e.key) == r && e.hash == kind.hash(e.key) && b == e.hash % |chains|
    ensures Static(kind, chains[b := [e] + chains[b]], entries[r := e], nodes + {e})
  {
    var chains', entries' := chains[b := [e] + chains[b]], entries[r := e];
    forall i | 0 <= i < |chains| ensures Within(chains'[i], nodes + {e}) { assert Within(chains[i], nodes); }
    forall i | 0 <= i < |chains| ensures Filed(chains'[i], i, |chains|, kind, entries') {
      assert Filed(chains[i], i, |chains|, kind, entries) && Within(chains[i], nodes);
      forall k | 0 <= k < |chains[i]| ensures Known(chains[i][k], kind, entries') {
        assert Known(chains[i][k], kind, entries);
      }
    }
    forall x | x in entries' ensures Placed(kind, x, entries'[x], chains') {
      if x != r { assert Placed(kind, x, entries[x], chains); }
    }
  }

  /** The table with one more entry, once that points at the old head of its bin. */
  lemma TablePush(kind: HashType, heads: seq<StEntry?>, chains: seq<Chain>, entries: map<int, StEntry>,
                  nodes: set<StEntry>,
                  r: int, e: StEntry, b: nat)
    requires Table(kind, heads, chains, entries, nodes) && r !in entries && e !in nodes
    requires kind.rep(e.key) == r && e.hash == kind.hash(e.key) && b == e.hash % |chains| && e.next == heads[b]
    ensures Table(kind, heads[b := e], chains[b := [e] + chains[b]], entries[r := e], nodes + {e})
  {
    StaticPush(kind, chains, entries, nodes, r, e, b);
    Fronted(e, chains[b]);
  }

  /** The first entry of the bin with this hash and key, if any, is the entry for the key. */
  lemma Found(kind: HashType, chains: seq<Chain>, entries: map<int, StEntry>, nodes: set<StEntry>, key: Data, k: nat)
    requires Coherent(kind) && Static(kind, chains, entries, nodes)
    requires var chain := chains[kind.hash(key) % |chains|];
             && k <= |chain|
             && (forall j :: 0 <= j < k ==>
                   kind.rep(chain[j].key) != kind.rep(key) || chain[j].hash != kind.hash(key))
             && (k < |chain| ==> kind.rep(chain[k].key) == kind.rep(key))
    ensures At(chains[kind.hash(key) % |chains|], k) == if kind.rep(key) in entries then entries[kind.rep(key)]
            else null
  {
    var i := kind.hash(key) % |chains|;
    var chain := chains[i];
    assert Filed(chain, i, |chains|, kind, entries);
    var r := kind.rep(key);
    if r in entries {
      assert Placed(kind, r, entries[r], chains);
      var j :| 0 <= j < |chain| && chain[j] == entries[r];
      assert j >= k;
    }
    if k < |chain| { assert Known(chain[k], kind, entries); }
  }

  /** The map without one key class. */
  ghost function Without(entries: map<int, StEntry>, r: int): map<int, StEntry> {
    map x | x in entries && x != r :: entries[x]
  }

  lemma WithoutOne(entries: map<int, StEntry>, r: int)
    requires r in entries
    ensures |Without(entries, r)| == |entries| - 1
  {
    assert Without(entries, r)[r := entries[r]] == entries;
  }

  /** The chains without the k-th entry of bin b. */
  lemma StaticDrop(kind: HashType, chains: seq<Chain>, entries: map<int, StEntry>, nodes: set<StEntry>, b: nat, k: nat)
    requires Static(kind, chains, entries, nodes) && b < |chains| && k < |chains[b]|
    ensures var r := kind.rep(chains[b][k].key);
            && r in entries && entries[r] == chains[b][k]
            && Static(kind, chains[b := chains[b][..k] + chains[b][k + 1..]], Without(entries, r), nodes)
  {
    var chain, e := chains[b], chains[b][k];
    var r := kind.rep(e.key);
    assert Filed(chain, b, |chains|, kind, entries) && Known(e, kind, entries);
    var shorter, less := chain[..k] + chain[k + 1..], Without(entries, r);
    var chains' := chains[b := shorter];
    assert Within(chain, nodes);
    forall i | 0 <= i < |chains| ensures Filed(chains'[i], i, |chains|, kind, less) {
      assert Filed(chains[i], i, |chains|, kind, entries);
      forall m | 0 <= m < |chains'[i]| ensures Known(chains'[i][m], kind, less) && chains'[i][m].hash % |chains| == i {
        var n := if i == b && m >= k then m + 1 else m;
        assert chains'[i][m] == chains[i][n] && Known(chains[i][n], kind, entries);
      }
      if i == b { Shortened(chain, k); }
    }
    forall x | x in less ensures Placed(kind, x, less[x], chains') {
      assert Placed(kind, x, entries[x], chains);
      if entries[x].hash % |chains| == b { StillThere(chain, k, entries[x]); }
    }
  }

  lemma Shortened(chain: Chain, k: nat)
    requires Distinct(chain) && k < |chain|
    ensures Distinct(chain[..k] + chain[k + 1..])
  {
  }

  lemma StillThere(chain: Chain, k: nat, e: StEntry)
    requires k < |chain| && e in chain && e != chain[k]
    ensures e in chain[..k] + chain[k + 1..]
  {
    var j :| 0 <= j < |chain| && chain[j] == e;
    var shorter := chain[..k] + chain[k + 1..];
    assert if j < k then shorter[j] == e else shorter[j - 1] == e;
  }

  /** A chain whose k-th entry has been passed over. */
  lemma Unlinked(head: StEntry?, chain: Chain, k: nat)
    requires k < |chain| && head == (if k == 0 then At(chain, 1) else chain[0])
    requires forall j :: 0 <= j < |chain| ==> chain[j].next == At(chain, if j == k - 1 then k + 1 else j + 1)
    ensures Linked(head, chain[..k] + chain[k + 1..])
  {
    var shorter := chain[..k] + chain[k + 1..];
    forall j | 0 <= j < |shorter| ensures shorter[j].next == At(shorter, j + 1) {
      if j < k { assert chain[j].next == At(chain, if j == k - 1 then k + 1 else j + 1); }
      else { assert chain[j + 1].next == At(chain, j + 2); }
    }
  }

  ghost function Dropped(chain: Chain, k: nat): Chain
    requires k < |chain|
  {
    chain[..k] + chain[k + 1..]
  }

  /** All bins but one are linked. */
  ghost predicate RestOf(heads: seq<StEntry?>, chains: seq<Chain>, b: nat, nodes: set<StEntry>)
    requires |heads| == |chains|
    reads nodes`next
  {
    forall i :: 0 <= i < |chains| && i != b ==> Within(chains[i], nodes) && Linked(heads[i], chains[i])
  }

  lemma TableDrop(kind: HashType, heads: seq<StEntry?>, chains: seq<Chain>, entries: map<int, StEntry>,
                  nodes: set<StEntry>, b: nat, k: nat)
    requires |heads| == |chains| && Static(kind, chains, entries, nodes) && b < |chains| && k < |chains[b]|
    requires RestOf(heads, chains, b, nodes) && Linked(heads[b], Dropped(chains[b], k))
    ensures var r := kind.rep(chains[b][k].key);
            && r in entries && entries[r] == chains[b][k]
            && Table(kind, heads, chains[b := Dropped(chains[b], k)], Without(entries, r), nodes)
  {
    StaticDrop(kind, chains, entries, nodes, b, k);
  }

  lemma Stored(kind: HashType, chains: seq<Chain>, entries: map<int, StEntry>, nodes: set<StEntry>, b: nat, k: nat)
    requires Static(kind, chains, entries, nodes) && b < |chains| && k < |chains[b]|
    ensures AllIn(entries, nodes) && kind.rep(chains[b][k].key) in entries
    ensures var e := chains[b][k];
            kind.rep(e.key) in MapOf(entries, nodes) && MapOf(entries, nodes)[kind.rep(e.key)] == (e.key, e.record)
  {
    assert Filed(chains[b], b, |chains|, kind, entries) && Known(chains[b][k], kind, entries);
    MapAt(entries, nodes, kind.rep(chains[b][k].key));
  }

  lemma MapDrop(entries: map<int, StEntry>, nodes: set<StEntry>, r: int)
    requires AllIn(entries, nodes) && r in entries
    ensures AllIn(Without(entries, r), nodes)
    ensures MapOf(Without(entries, r), nodes) == MapOf(entries, nodes) - {r}
  {
  }

  /** The bin that a key belongs to holds no entry for it. */
  lemma NotFound(kind: HashType, chains: seq<Chain>, entries: map<int, StEntry>, nodes: set<StEntry>, key: Data)
    requires Coherent(kind) && Static(kind, chains, entries, nodes)
    requires var chain := chains[kind.hash(key) % |chains|];
             forall j :: 0 <= j < |chain| ==> kind.rep(chain[j].key) != kind.rep(key)
    ensures kind.rep(key) !in entries
  {
    Found(kind, chains, entries, nodes, key, |chains[kind.hash(key) % |chains|]|);
  }

  // ----- counting -----

  ghost function InChain(entries: map<int, StEntry>, chain: Chain): set<int> {
    set r | r in entries && entries[r] in chain
  }

  ghost function InFirst(entries: map<int, StEntry>, chains: seq<Chain>, i: nat): set<int>
    requires i <= |chains|
  {
    set r | r in entries && exists j :: 0 <= j < i && entries[r] in chains[j]
  }

  ghost function Total(chains: seq<Chain>): nat {
    if chains == [] then 0 else Total(chains[..|chains| - 1]) + |chains[|chains| - 1]|
  }

  lemma {:induction false} CountChain(kind: HashType, entries: map<int, StEntry>, chain: Chain, i: int, n: int)
    requires n > 0 && Filed(chain, i, n, kind, entries) && forall r :: r in entries ==> kind.rep(entries[r].key) == r
    ensures |InChain(entries, chain)| == |chain|
    decreases |chain|
  {
    if chain == [] {
      assert InChain(entries, chain) == {};
    } else {
      var shorter, last := chain[..|chain| - 1], chain[|chain| - 1];
      assert forall k :: 0 <= k < |shorter| ==> Known(chain[k], kind, entries) && shorter[k] == chain[k];
      CountChain(kind, entries, shorter, i, n);
      assert Known(last, kind, entries);
      var r := kind.rep(last.key);
      assert chain == shorter + [last];
      assert InChain(entries, chain) == InChain(entries, shorter) + {r};
      assert last !in shorter;
    }
  }

  lemma TotalStep(chains: seq<Chain>, i: nat)
    requires i < |chains|
    ensures Total(chains[..i + 1]) == Total(chains[..i]) + |chains[i]|
  {
    assert chains[..i + 1][..i] == chains[..i];
  }

  lemma OneMore(kind: HashType, chains: seq<Chain>, entries: map<int, StEntry>, nodes: set<StEntry>, i: nat)
    requires Static(kind, chains, entries, nodes) && i < |chains|
    ensures InFirst(entries, chains, i + 1) == InFirst(entries, chains, i) + InChain(entries, chains[i])
    ensures InFirst(entries, chains, i) !! InChain(entries, chains[i])
  {
    hide Static;
    forall r | r in InFirst(entries, chains, i) ensures r !in InChain(entries, chains[i]) {
      var j :| 0 <= j < i && entries[r] in chains[j];
      OneBin(kind, chains, entries, nodes, entries[r], i, j);
    }
  }

  lemma OneBin(kind: HashType, chains: seq<Chain>, entries: map<int, StEntry>, nodes: set<StEntry>, e: StEntry, i: nat,
               j: nat)
    requires Static(kind, chains, entries, nodes) && j < i < |chains| && e in chains[j]
    ensures e !in chains[i]
  {
    assert Filed(chains[j], j, |chains|, kind, entries) && Filed(chains[i], i, |chains|, kind, entries);
  }

  lemma StaticParts(kind: HashType, chains: seq<Chain>, entries: map<int, StEntry>, nodes: set<StEntry>, i: nat)
    requires Static(kind, chains, entries, nodes) && i < |chains|
    ensures Filed(chains[i], i, |chains|, kind, entries)
    ensures forall r :: r in entries ==> kind.rep(entries[r].key) == r
  {
    assert forall r :: r in entries ==> Placed(kind, r, entries[r], chains);
  }

  lemma {:induction false} CountFirst(kind: HashType, chains: seq<Chain>, entries: map<int, StEntry>,
                                      nodes: set<StEntry>, i: nat)
    requires Static(kind, chains, entries, nodes) && i <= |chains|
    ensures |InFirst(entries, chains, i)| == Total(chains[..i])
  {
    if i == 0 {
      assert InFirst(entries, chains, 0) == {};
    } else {
      hide *;
      StaticParts(kind, chains, entries, nodes, i - 1);
      CountFirst(kind, chains, entries, nodes, i - 1);
      CountChain(kind, entries, chains[i - 1], i - 1, |chains|);
      OneMore(kind, chains, entries, nodes, i - 1);
      TotalStep(chains, i - 1);
    }
  }

  /** num_entries, the number of keys, is the sum of the lengths of the chains. */
  lemma CountAll(kind: HashType, chains: seq<Chain>, entries: map<int, StEntry>, nodes: set<StEntry>)
    requires Static(kind, chains, entries, nodes)
    ensures |entries| == Total(chains)
  {
    CountFirst(kind, chains, entries, nodes, |chains|);
    assert chains[..|chains|] == chains;
    forall r | r in entries ensures r in InFirst(entries, chains, |chains|) {
      assert Placed(kind, r, entries[r], chains);
    }
    assert InFirst(entries, chains, |chains|) == entries.Keys;
  }

  // ----- rehash, on values -----

  ghost predicate Outside(chain: Chain, done: set<StEntry>) { forall e :: e in chain ==> e !in done }

  /** The entries already moved: bins before i, and the first k of bin i. */
  ghost predicate Moved(done: set<StEntry>, chains: seq<Chain>, i: nat, k: nat)
    requires i <= |chains| && (i < |chains| ==> k <= |chains[i]|)
  {
    && (forall j :: 0 <= j < i ==> Within(chains[j], done))
    && (i < |chains| ==> Within(chains[i][..k], done) && Outside(chains[i][k..], done))
    && (forall j :: i < j < |chains| ==> Outside(chains[j], done))
  }

  lemma NothingMoved(chains: seq<Chain>)
    requires |chains| > 0
    ensures Moved({}, chains, 0, 0)
  {
  }

  /** The next entry of bin i has not been moved yet. */
  lemma NotMoved(kind: HashType, chains: seq<Chain>, entries: map<int, StEntry>, nodes: set<StEntry>,
                 done: set<StEntry>, i: nat, k: nat)
    requires Static(kind, chains, entries, nodes) && i < |chains| && k < |chains[i]| && Moved(done, chains, i, k)
    ensures chains[i][k] in nodes && chains[i][k] !in done && Known(chains[i][k], kind, entries)
    ensures Moved(done + {chains[i][k]}, chains, i, k + 1)
    ensures forall j :: i < j < |chains| ==> chains[i][k] !in chains[j]
    ensures chains[i][k] !in chains[i][k + 1..]
  {
    var e, chain := chains[i][k], chains[i];
    assert Filed(chain, i, |chains|, kind, entries) && Within(chain, nodes);
    assert e in chain[k..];
    assert chain[..k + 1] == chain[..k] + [e] && chain[k..] == [e] + chain[k + 1..];
    assert e !in chain[k + 1..];
    forall j | i < j < |chains| ensures Outside(chains[j], done + {e}) && e !in chains[j] {
      assert Filed(chains[j], j, |chains|, kind, entries) && Outside(chains[j], done);
    }
    forall j | 0 <= j < i ensures Within(chains[j], done + {e}) { assert Within(chains[j], done); }
  }

  lemma BinMoved(chains: seq<Chain>, done: set<StEntry>, i: nat)
    requires i < |chains| && Moved(done, chains, i, |chains[i]|)
    ensures Moved(done, chains, i + 1, 0)
  {
    assert chains[i][..|chains[i]|] == chains[i];
    if i + 1 < |chains| { assert chains[i + 1][0..] == chains[i + 1]; }
  }

  lemma NextIs(chain: Chain, k: nat)
    requires k < |chain| && LinkedFrom(chain, k)
    ensures chain[k].next == At(chain, k + 1) && LinkedFrom(chain, k + 1)
  {
  }

  lemma StaticWithin(kind: HashType, chains: seq<Chain>, entries: map<int, StEntry>, nodes: set<StEntry>)
    requires Static(kind, chains, entries, nodes)
    ensures |chains| > 0 && forall j :: 0 <= j < |chains| ==> Within(chains[j], nodes)
  {
  }

  /** The old bins from i on are still linked. */
  ghost predicate Rest(heads: seq<StEntry?>, chains: seq<Chain>, i: nat, nodes: set<StEntry>)
    requires |heads| == |chains|
    reads nodes`next
  {
    forall j :: i <= j < |chains| ==> Within(chains[j], nodes) && Linked(heads[j], chains[j])
  }

  lemma AllRest(kind: HashType, heads: seq<StEntry?>, chains: seq<Chain>, entries: map<int, StEntry>,
                nodes: set<StEntry>)
    requires Table(kind, heads, chains, entries, nodes)
    ensures Static(kind, chains, entries, nodes) && Rest(heads, chains, 0, nodes)
  {
  }

  /** Bins under construction, holding the entries in done. */
  ghost predicate Gathered(kind: HashType, heads: seq<StEntry?>, chains: seq<Chain>, entries: map<int, StEntry>,
                           done: set<StEntry>)
    reads done`key, done`hash, done`next
  {
    && 0 < |heads| == |chains|
    && (forall i :: 0 <= i < |chains| ==> Within(chains[i], done))
    && (forall i :: 0 <= i < |chains| ==> Filed(chains[i], i, |chains|, kind, entries) && Linked(heads[i], chains[i]))
    && (forall e :: e in done ==> e in chains[e.hash % |chains|])
  }

  /** One more entry at the front of its new bin, once that points at the old head. */
  lemma GatherOne(kind: HashType, heads: seq<StEntry?>, chains: seq<Chain>, entries: map<int, StEntry>,
                  done: set<StEntry>, e: StEntry)
    requires Gathered(kind, heads, chains, entries, done) && Known(e, kind, entries) && e !in done
    requires e.next == heads[e.hash % |chains|]
    ensures var b := e.hash % |chains|;
            Gathered(kind, heads[b := e], chains[b := [e] + chains[b]], entries, done + {e})
  {
    var b := e.hash % |chains|;
    Fronted(e, chains[b]);
    var chains' := chains[b := [e] + chains[b]];
    forall i | 0 <= i < |chains| ensures Within(chains'[i], done + {e}) { assert Within(chains[i], done); }
    assert Filed(chains[b], b, |chains|, kind, entries) && Within(chains[b], done);
  }

  lemma GatherNone(kind: HashType, n: nat, entries: map<int, StEntry>)
    requires n > 0
    ensures Gathered(kind, seq(n, i => null), seq(n, i => []), entries, {})
  {
  }

  /** When every entry has been moved the new bins are a table. */
  lemma AllGathered(kind: HashType, old_: seq<Chain>, heads: seq<StEntry?>, chains: seq<Chain>, entries: map<int,
                    StEntry>,
                    nodes: set<StEntry>, done: set<StEntry>)
    requires Static(kind, old_, entries, nodes) && Moved(done, old_, |old_|, 0) && done <= nodes
    requires Gathered(kind, heads, chains, entries, done)
    ensures Table(kind, heads, chains, entries, nodes)
  {
    forall r | r in entries ensures Placed(kind, r, entries[r], chains) {
      assert Placed(kind, r, entries[r], old_);
      assert Within(old_[entries[r].hash % |old_|], done);
    }
    forall i | 0 <= i < |chains| ensures Within(chains[i], nodes) { assert Within(chains[i], done); }
  }

  class StTable {
    const kind: HashType
    var bins: array<StEntry?>
    var numBins: int
    var numEntries: int
    ghost var chains: seq<Chain>                // the entries of each bin, in order
    ghost var entries: map<int, StEntry>        // the entry for each key class
    ghost var nodes: set<StEntry>               // all of them

    ghost predicate Valid()
      reads this, bins, nodes`key, nodes`hash, nodes`next
    {
      && Coherent(kind) && 0 < numBins == bins.Length == |chains| && numEntries == |entries|
      && Table(kind, bins[..], chains, entries, nodes)
    }

    ghost function Contents(): map<int, (Data, Data)>
      requires AllIn(entries, nodes)
      reads this, nodes`key, nodes`record
    {
      MapOf(entries, nodes)
    }

    lemma Parts()
      requires Valid()
      ensures Coherent(kind) && 0 < numBins == bins.Length == |chains| && numEntries == |entries|
      ensures Table(kind, bins[..], chains, entries, nodes) && AllIn(entries, nodes)
      ensures Static(kind, chains, entries, nodes) && Contents() == MapOf(entries, nodes)
    {
      hide Coherent, Filed, Linked, Placed, Within, MapOf;
    }

    lemma Whole()
      requires Coherent(kind) && 0 < numBins == bins.Length == |chains| && numEntries == |entries|
      requires Table(kind, bins[..], chains, entries, nodes)
      ensures Valid() && AllIn(entries, nodes) && Contents() == MapOf(entries, nodes)
    {
      hide Coherent, Filed, Linked, Placed, Within, MapOf;
    }

    /** st_init_table_with_size */
    constructor (kind: HashType, size: nat)
      requires Coherent(kind) && size < 0x4000_0000
      ensures Valid() && fresh(bins) && this.kind == kind && Contents() == map[]
    {
      var n := NewSize(size);
      TableEmpty(kind, n);
      hide Table;
      this.kind := kind;
      bins := new StEntry?[n](i => null);
      numBins, numEntries := n, 0;
      chains := seq(n, i => []);
      entries, nodes := map[], {};
      new;
      assert bins[..] == seq(n, i => null);
    }

    predicate Equal(x: Data, y: Data) { x == y || kind.rep(x) == kind.rep(y) }

    /** PTR_NOT_EQUAL */
    predicate PtrNotEqual(ptr: StEntry?, hash: nat, key: Data)
      reads ptr
    {
      ptr != null && (ptr.hash != hash || !Equal(key, ptr.key))
    }

    /** FIND_ENTRY */
    method FindEntry(hash: nat, key: Data) returns (ptr: StEntry?, binPos: nat)
      requires Valid() && hash == kind.hash(key)
      ensures binPos == hash % numBins
      ensures ptr == if kind.rep(key) in entries then entries[kind.rep(key)] else null
    {
      binPos := hash % numBins;
      ghost var chain := chains[binPos];
      assert Linked(bins[..][binPos], chain);
      ptr := bins[binPos];
      ghost var k: nat := 0;
      if PtrNotEqual(ptr, hash, key) {
        while PtrNotEqual(ptr.next, hash, key)
          invariant k < |chain| && ptr == chain[k]
          invariant forall j :: 0 <= j <= k ==> PtrNotEqual(chain[j], hash, key)
          decreases |chain| - k
        {
          ptr := ptr.next;
          k := k + 1;
        }
        ptr := ptr.next;
        k := k + 1;
      }
      Found(kind, chains, entries, nodes, key, k);
    }

    /** st_lookup */
    method Lookup(key: Data) returns (found: bool, record: Data)
      requires Valid()
      ensures found <==> kind.rep(key) in Contents()
      ensures found ==> record == Contents()[kind.rep(key)].1
    {
      var ptr, binPos := FindEntry(kind.hash(key), key);
      MapAt(entries, nodes, kind.rep(key));
      if ptr == null { return false, 0; }
      return true, ptr.record;
    }

    // ----- growth -----

    /** What rehash keeps, with k entries of bin i moved; ptr is the next one. */
    ghost predicate Midway(ptr: StEntry?, i: nat, k: nat, heads: seq<StEntry?>, newChains: seq<Chain>,
                           done: set<StEntry>)
      reads this, bins, nodes`key, nodes`hash, nodes`next
    {
      && i < numBins == bins.Length == |chains| && Static(kind, chains, entries, nodes)
      && k <= |chains[i]| && ptr == At(chains[i], k) && done <= nodes && Moved(done, chains, i, k)
      && Gathered(kind, heads, newChains, entries, done)
      && Within(chains[i], nodes) && LinkedFrom(chains[i], k)
      && Rest(bins[..], chains, i + 1, nodes)
    }

    lemma MidwayNext(ptr: StEntry, i: nat, k: nat, heads: seq<StEntry?>, newChains: seq<Chain>, done: set<StEntry>)
      requires Midway(ptr, i, k, heads, newChains, done)
      ensures i < |chains| == bins.Length && k < |chains[i]| && ptr !in done && ptr in nodes
              && Known(ptr, kind, entries)
      ensures Gathered(kind, heads, newChains, entries, done) && Rest(bins[..], chains, i + 1, nodes)
      ensures ptr.next == At(chains[i], k + 1) && LinkedFrom(chains[i], k + 1)
      ensures Moved(done + {ptr}, chains, i, k + 1) && done + {ptr} <= nodes
      ensures ptr !in chains[i][k + 1..] && forall j :: i < j < |chains| ==> ptr !in chains[j]
      ensures Static(kind, chains, entries, nodes) && Within(chains[i], nodes)
    {
      NotMoved(kind, chains, entries, nodes, done, i, k);
      NextIs(chains[i], k);
    }

    /** One round of the inner loop of rehash. */
    method MoveOne(ptr: StEntry, i: nat, ghost k: nat, newBins: array<StEntry?>, ghost newChains0: seq<Chain>,
                   ghost done: set<StEntry>)
      returns (next: StEntry?, ghost newChains: seq<Chain>)
      requires newBins != bins && Midway(ptr, i, k, newBins[..], newChains0, done)
      modifies newBins, nodes`next
      ensures i < |chains| && k < |chains[i]| && Midway(next, i, k + 1, newBins[..], newChains, done + {ptr})
    {
      MidwayNext(ptr, i, k, newBins[..], newChains0, done);
      assert i < numBins == bins.Length == |chains|;
      hide *;
      next := ptr.next;
      newChains := Detach(ptr, i + 1, newBins, newChains0, done);
      MidwayIs(next, i, k + 1, newBins[..], newChains, done + {ptr});
    }

    lemma MidwayIs(ptr: StEntry?, i: nat, k: nat, heads: seq<StEntry?>, newChains: seq<Chain>, done: set<StEntry>)
      requires i < numBins == bins.Length == |chains| && Static(kind, chains, entries, nodes)
      requires k <= |chains[i]| && ptr == At(chains[i], k) && done <= nodes && Moved(done, chains, i, k)
      requires Gathered(kind, heads, newChains, entries, done)
      requires Within(chains[i], nodes) && LinkedFrom(chains[i], k) && Rest(bins[..], chains, i + 1, nodes)
      ensures Midway(ptr, i, k, heads, newChains, done)
    {
    }

    /** Relinking touches no later bin. */
    method Detach(ptr: StEntry, ghost i: nat, newBins: array<StEntry?>, ghost newChains: seq<Chain>,
                  ghost done: set<StEntry>)
      returns (ghost chains': seq<Chain>)
      requires Gathered(kind, newBins[..], newChains, entries, done) && Known(ptr, kind, entries) && ptr !in done
      requires |chains| == bins.Length && Rest(bins[..], chains, i, nodes) && newBins != bins
      requires forall j :: i <= j < |chains| ==> ptr !in chains[j]
      modifies newBins, ptr`next
      ensures Gathered(kind, newBins[..], chains', entries, done + {ptr}) && Rest(bins[..], chains, i, nodes)
    {
      hide Gathered, Known, LinkedFrom;
      chains' := Relink(ptr, newBins, newChains, done);
    }

    /** The inner loop of rehash, over one bin. */
    method MoveBin(i: nat, newBins: array<StEntry?>, ghost newChains0: seq<Chain>, ghost done0: set<StEntry>)
      returns (ghost newChains: seq<Chain>, ghost done: set<StEntry>)
      requires i < numBins == bins.Length == |chains| && newBins != bins && Static(kind, chains, entries, nodes)
      requires done0 <= nodes && Moved(done0, chains, i, 0) && Gathered(kind, newBins[..], newChains0, entries, done0)
      requires Rest(bins[..], chains, i, nodes)
      modifies newBins, nodes`next
      ensures done <= nodes && Moved(done, chains, i + 1, 0) && Gathered(kind, newBins[..], newChains, entries, done)
      ensures Rest(bins[..], chains, i + 1, nodes)
    {
      newChains, done := newChains0, done0;
      ghost var k: nat := 0;
      var ptr := bins[i];
      StaticWithin(kind, chains, entries, nodes);
      assert Linked(ptr, chains[i]);
      assert Midway(ptr, i, 0, newBins[..], newChains, done);
      hide Moved, Gathered, Static, Within, LinkedFrom, Linked;
      while ptr != null
        invariant Midway(ptr, i, k, newBins[..], newChains, done)
        decreases |chains[i]| - k
      {
        ghost var e: StEntry := ptr;
        ptr, newChains := MoveOne(ptr, i, k, newBins, newChains, done);
        done := done + {e};
        k := k + 1;
      }
      BinMoved(chains, done, i);
    }

    /** One step of rehash: the entry goes to the front of its new bin. */
    method Relink(ptr: StEntry, newBins: array<StEntry?>, ghost newChains: seq<Chain>, ghost done: set<StEntry>)
      returns (ghost chains': seq<Chain>)
      requires Gathered(kind, newBins[..], newChains, entries, done) && Known(ptr, kind, entries) && ptr !in done
      modifies newBins, ptr`next
      ensures Gathered(kind, newBins[..], chains', entries, done + {ptr})
    {
      var hashVal := ptr.hash % newBins.Length;
      ghost var heads := newBins[..];
      ptr.next := newBins[hashVal];
      GatherOne(kind, heads, newChains, entries, done, ptr);
      hide Gathered;
      newBins[hashVal] := ptr;
      chains' := newChains[hashVal := [ptr] + newChains[hashVal]];
      assert newBins[..] == heads[hashVal := ptr];
    }

    /** The outer loop of rehash. */
    method MoveBins(newBins: array<StEntry?>) returns (ghost newChains: seq<Chain>)
      requires Valid() && newBins != bins && newBins.Length > 0 && forall b :: 0 <= b < newBins.Length ==>
               newBins[b] == null
      modifies newBins, nodes`next
      ensures Table(kind, newBins[..], newChains, entries, nodes)
    {
      hide *;
      Parts();
      newChains := seq(newBins.Length, i => []);
      ghost var done: set<StEntry> := {};
      assert newBins[..] == seq(newBins.Length, i => null);
      GatherNone(kind, newBins.Length, entries);
      NothingMoved(chains);
      AllRest(kind, bins[..], chains, entries, nodes);
      var i: nat := 0;
      while i < numBins
        invariant 0 <= i <= numBins && done <= nodes
        invariant Moved(done, chains, i, 0) && Gathered(kind, newBins[..], newChains, entries, done)
        invariant Rest(bins[..], chains, i, nodes)
      {
        newChains, done := MoveBin(i, newBins, newChains, done);
        i := i + 1;
      }
      AllGathered(kind, chains, newBins[..], newChains, entries, nodes, done);
    }

    /** rehash, while there is a larger size. */
    method Rehash()
      requires Valid() && numBins + 1 < 0x4000_0000
      modifies this`bins, this`numBins, this`chains, nodes`next
      ensures Valid() && fresh(bins) && numBins > old(numBins)
      ensures Contents() == old(Contents())
    {
      hide *;
      Parts();
      var newNumBins := NewSize(numBins + 1);
      var newBins := new StEntry?[newNumBins](i => null);
      ghost var newChains := MoveBins(newBins);
      TableSize(kind, newBins[..], newChains, entries, nodes);
      numBins, bins, chains := newNumBins, newBins, newChains;
      Whole();
    }

    lemma TableSize(kind: HashType, heads: seq<StEntry?>, cs: seq<Chain>, es: map<int, StEntry>, ns: set<StEntry>)
      requires Table(kind, heads, cs, es, ns)
      ensures |heads| == |cs| && AllIn(es, ns)
    {
    }

    // ----- insertion -----

    method SetBin(b: nat, e: StEntry?)
      requires b < bins.Length
      modifies bins
      ensures bins[..] == old(bins[..])[b := e]
    {
      bins[b] := e;
    }

    /** A new entry goes to the front of its bin. */
    method Link(ghost r: int, entry: StEntry, binPos: nat)
      requires Valid() && binPos < numBins && entry !in nodes
      requires Table(kind, bins[..][binPos := entry], chains[binPos := [entry] + chains[binPos]], entries[r := entry],
                     nodes + {entry})
      requires r !in entries && AllIn(entries[r := entry], nodes + {entry})
      modifies this`numEntries, this`chains, this`entries, this`nodes, bins
      ensures Valid() && nodes == old(nodes) + {entry}
      ensures Contents() == old(MapOf(entries[r := entry], nodes + {entry}))
    {
      hide *;
      Parts();
      SetBin(binPos, entry);
      numEntries := numEntries + 1;
      chains := chains[binPos := [entry] + chains[binPos]];
      entries, nodes := entries[r := entry], nodes + {entry};
      Whole();
    }

    /** The end of ADD_DIRECT. */
    method Push(hash: nat, key: Data, record: Data, binPos: nat)
      requires Valid() && kind.rep(key) !in entries && hash == kind.hash(key) && binPos == hash % numBins
      modifies this`numEntries, this`chains, this`entries, this`nodes, bins
      ensures Valid() && fresh(nodes - old(nodes))
      ensures Contents() == old(Contents())[kind.rep(key) := (key, record)]
    {
      hide *;
      Parts();
      ghost var r := kind.rep(key);
      var entry := new StEntry(hash, key, record, bins[binPos]);
      TablePush(kind, bins[..], chains, entries, nodes, r, entry, binPos);
      MapPush(entries, nodes, r, entry);
      Link(r, entry, binPos);
    }

    /** ADD_DIRECT, for a key that is not there. */
    method AddDirect(hash: nat, key: Data, record: Data, binPos0: nat)
      requires Valid() && kind.rep(key) !in entries && hash == kind.hash(key) && binPos0 == hash % numBins
      requires numEntries / numBins > ST_DEFAULT_MAX_DENSITY ==> numBins + 1 < 0x4000_0000
      modifies this, bins, nodes
      ensures Valid() && (bins == old(bins) || fresh(bins)) && fresh(nodes - old(nodes))
      ensures Contents() == old(Contents())[kind.rep(key) := (key, record)]
    {
      var binPos := binPos0;
      if numEntries / numBins > ST_DEFAULT_MAX_DENSITY {
        Rehash();
        binPos := hash % numBins;
      }
      Push(hash, key, record, binPos);
    }

    method SetRecord(ghost r: int, ptr: StEntry, record: Data)
      requires Valid() && r in entries && entries[r] == ptr
      modifies ptr`record
      ensures Valid() && Contents() == old(Contents())[r := (ptr.key, record)]
    {
      hide *;
      Parts();
      Alone(kind, chains, entries, nodes, r);
      ghost var was := Contents();
      WasMap(was);
      ptr.record := record;
      NowMap(was, r, record);
    }

    lemma WasMap(was: map<int, (Data, Data)>)
      requires AllIn(entries, nodes) && was == MapOf(entries, nodes)
      ensures was.Keys == entries.Keys && forall x :: x in entries ==> was[x] == (entries[x].key, entries[x].record)
    {
    }

    lemma NowMap(was: map<int, (Data, Data)>, r: int, record: Data)
      requires AllIn(entries, nodes) && r in entries && entries[r].record == record && was.Keys == entries.Keys
      requires forall x :: x in entries ==>
                 was[x].0 == entries[x].key && (x != r ==> was[x].1 == entries[x].record)
      ensures Contents() == was[r := (entries[r].key, record)]
    {
      var now, goal := Contents(), was[r := (entries[r].key, record)];
      assert now.Keys == goal.Keys;
      forall x | x in entries ensures now[x] == goal[x] {}
    }

    /** st_insert: a key that is there keeps its spelling and gets the new record. */
    method Insert(key: Data, record: Data) returns (found: bool)
      requires Valid() && (numEntries / numBins > ST_DEFAULT_MAX_DENSITY ==> numBins + 1 < 0x4000_0000)
      modifies this, bins, nodes
      ensures Valid() && (bins == old(bins) || fresh(bins)) && fresh(nodes - old(nodes))
      ensures found <==> kind.rep(key) in old(Contents())
      ensures var r := kind.rep(key);
              Contents() == old(Contents())[r := (if found then old(Contents())[r].0 else key, record)]
    {
      var ptr, binPos := FindEntry(kind.hash(key), key);
      Parts();
      MapAt(entries, nodes, kind.rep(key));
      hide *;
      if ptr == null {
        AddDirect(kind.hash(key), key, record, binPos);
        return false;
      }
      SetRecord(kind.rep(key), ptr, record);
      return true;
    }

    // ----- deletion -----

    /** The chains and counts follow once the entry has been passed over. */
    ghost method Forget(chains': seq<Chain>, entries': map<int, StEntry>)
      requires Coherent(kind) && 0 < numBins == bins.Length && numEntries == |entries'|
      requires Table(kind, bins[..], chains', entries', nodes) && AllIn(entries', nodes)
      modifies this`chains, this`entries
      ensures Valid() && Contents() == old(MapOf(entries', nodes))
    {
      hide *;
      TableSize(kind, bins[..], chains', entries', nodes);
      chains, entries := chains', entries';
      Whole();
    }

    /** The search of st_delete: the entry for the key, if any, and the one before it. */
    method FindPrev(key: Data, b: nat) returns (prev: StEntry?, e: StEntry?, ghost k: nat)
      requires Valid() && b == kind.hash(key) % numBins
      ensures k <= |chains[b]| && e == At(chains[b], k) && (e != null ==>
              prev == (if k == 0 then null else chains[b][k - 1]))
      ensures e == null ==> kind.rep(key) !in entries
      ensures e != null ==> kind.rep(e.key) == kind.rep(key)
    {
      ghost var chain := chains[b];
      var ptr := bins[b];
      assert Linked(bins[..][b], chain);
      if ptr == null {
        NotFound(kind, chains, entries, nodes, key);
        return null, null, 0;
      }
      if Equal(key, ptr.key) { return null, ptr, 0; }
      k := 0;
      while ptr.next != null
        invariant k < |chain| && ptr == chain[k]
        invariant forall j :: 0 <= j <= k ==> kind.rep(chain[j].key) != kind.rep(key)
        decreases |chain| - k
      {
        if Equal(ptr.next.key, key) { return ptr, ptr.next, k + 1; }
        ptr := ptr.next;
        k := k + 1;
      }
      NotFound(kind, chains, entries, nodes, key);
      return ptr, null, |chain|;
    }

    /** st_delete: the stored key and record of what is removed. */
    method Delete(key: Data) returns (found: bool, stored: Data, record: Data)
      requires Valid()
      modifies this, bins, nodes
      ensures Valid() && bins == old(bins) && nodes == old(nodes) && numBins == old(numBins)
      ensures found <==> kind.rep(key) in old(Contents())
      ensures found ==> (stored, record) == old(Contents())[kind.rep(key)]
      ensures Contents() == old(Contents()) - {kind.rep(key)}
    {
      var hashVal := kind.hash(key) % numBins;
      ghost var k;
      var prev, e;
      prev, e, k := FindPrev(key, hashVal);
      Parts();
      MapAt(entries, nodes, kind.rep(key));
      hide *;
      if e == null { return false, 0, 0; }
      stored, record := Cut(hashVal, k, prev, e);
      found := true;
    }

    /** Takes the entry out of its bin; prev is the entry before it, if any. */
    method Cut(b: nat, ghost k: nat, prev: StEntry?, e: StEntry) returns (stored: Data, record: Data)
      requires Valid() && b < numBins && k < |chains[b]| && e == chains[b][k]
      requires prev == (if k == 0 then null else chains[b][k - 1])
      modifies this`numEntries, this`chains, this`entries, bins, nodes`next
      ensures Valid()
      ensures kind.rep(e.key) in old(Contents()) && (stored, record) == old(Contents())[kind.rep(e.key)]
      ensures Contents() == old(Contents()) - {kind.rep(e.key)}
    {
      Stored(kind, chains, entries, nodes, b, k);
      MapDrop(entries, nodes, kind.rep(e.key));
      hide Static, Table, MapOf, Coherent, Linked, AllIn;
      stored, record := e.key, e.record;
      Unlink(b, k, prev, e);
    }

    method Unlink(b: nat, ghost k: nat, prev: StEntry?, e: StEntry)
      requires Valid() && b < numBins && k < |chains[b]| && e == chains[b][k]
      requires prev == (if k == 0 then null else chains[b][k - 1])
      requires kind.rep(e.key) in entries && AllIn(Without(entries, kind.rep(e.key)), nodes)
      modifies this`numEntries, this`chains, this`entries, bins, nodes`next
      ensures Valid() && Contents() == old(MapOf(Without(entries, kind.rep(e.key)), nodes))
    {
      hide Static, Table, MapOf, Coherent, Linked, AllIn, Dropped, RestOf, Without;
      ghost var less := Without(entries, kind.rep(e.key));
      WithoutOne(entries, kind.rep(e.key));
      CutTable(b, k, prev, e, less);
      numEntries := numEntries - 1;
      Forget(chains[b := Dropped(chains[b], k)], less);
    }

    method CutTable(b: nat, ghost k: nat, prev: StEntry?, e: StEntry, ghost less: map<int, StEntry>)
      requires bins.Length == |chains| && Table(kind, bins[..], chains, entries, nodes)
      requires b < |chains| && k < |chains[b]| && e == chains[b][k]
               && prev == (if k == 0 then null else chains[b][k - 1])
      requires kind.rep(e.key) in entries && less == Without(entries, kind.rep(e.key))
      modifies bins, nodes`next
      ensures Table(kind, bins[..], chains[b := Dropped(chains[b], k)], less, nodes)
    {
      TableStatic(kind, bins[..], chains, entries, nodes, b);
      hide *;
      CutLink(b, k, prev, e);
      TableDrop(kind, bins[..], chains, entries, nodes, b, k);
    }

    /** The two assignments of st_delete that pass an entry over. */
    method CutLink(b: nat, ghost k: nat, prev: StEntry?, e: StEntry)
      requires bins.Length == |chains| && Static(kind, chains, entries, nodes)
      requires RestOf(bins[..], chains, b, nodes) && b < |chains| && Linked(bins[b], chains[b])
      requires k < |chains[b]| && e == chains[b][k] && prev == (if k == 0 then null else chains[b][k - 1])
      modifies bins, nodes`next
      ensures RestOf(bins[..], chains, b, nodes) && Linked(bins[b], Dropped(chains[b], k))
    {
      if prev == null {
        Unheaded(chains[b]);
        hide *;
        SetBin(b, e.next);
      } else {
        CutAfter(b, k, prev, e);
      }
    }

    method CutAfter(b: nat, ghost k: nat, prev: StEntry, e: StEntry)
      requires bins.Length == |chains| && Static(kind, chains, entries, nodes)
      requires RestOf(bins[..], chains, b, nodes) && b < |chains| && Linked(bins[b], chains[b])
      requires 0 < k < |chains[b]| && e == chains[b][k] && prev == chains[b][k - 1]
      modifies prev`next
      ensures RestOf(bins[..], chains, b, nodes) && Linked(bins[b], Dropped(chains[b], k))
    {
      ghost var chain := chains[b];
      assert Within(chain, nodes) && Filed(chain, b, |chains|, kind, entries);
      forall i | 0 <= i < |chains| && i != b ensures prev !in chains[i] {
        assert Filed(chains[i], i, |chains|, kind, entries);
      }
      prev.next := e.next;
      Unlinked(bins[b], chain, k);
    }
  }

  lemma Unheaded(chain: Chain)
    requires |chain| > 0 && LinkedFrom(chain, 0)
    ensures Linked(chain[0].next, Dropped(chain, 0))
  {
    Unlinked(chain[0].next, chain, 0);
  }

  lemma TableStatic(kind: HashType, heads: seq<StEntry?>, chains: seq<Chain>, entries: map<int, StEntry>,
                    nodes: set<StEntry>, b: nat)
    requires Table(kind, heads, chains, entries, nodes) && b < |chains|
    ensures |heads| == |chains| && Static(kind, chains, entries, nodes)
    ensures RestOf(heads, chains, b, nodes) && Linked(heads[b], chains[b])
  {
  }
}
