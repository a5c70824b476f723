/**
 * A scan session (internal/data/scan.go): a glob pattern, a page size, the
 * "scanning" flag and one SCAN iterator per node address, created on first contact
 * and resumed by every later round.
 */
module ScanSession {
  import opened Wrappers
  import opened Redis
  import opened Strings

  /** The names one call pulls from an iterator, and the iterator afterwards. */
  datatype Page = Page(names: seq<string>, iter: Iter)

  /** The most names one call may queue: the page size, or none when it is negative. */
  function PageLimit(pageSize: int): nat
  {
    if pageSize < 0 then 0 else pageSize
  }

  /**
   * What `for iter.Next(ctx) && numFound < s.pageSize` does to an iterator: Next is
   * called before the count is tested, so a call that finds more names left than
   * fit has already moved past one more name, which it never queues.
   */
  function TakePage(it: Iter, pageSize: int): (p: Page)
    requires it.Valid()
    ensures p.iter.Valid() && p.iter.names == it.names && p.iter.failure == it.failure
    // at most pageSize names, taken in iterator order from where the iterator stood
    ensures |p.names| <= PageLimit(pageSize) && it.pos + |p.names| <= |it.names|
    ensures p.names == it.names[it.pos..it.pos + |p.names|]
    // more names than fit: a full page, and one further name consumed but not queued
    ensures it.Remaining() > PageLimit(pageSize) ==>
              |p.names| == PageLimit(pageSize) && !p.iter.ended && p.iter.pos == it.pos + |p.names| + 1
    // otherwise every remaining name, and the iterator has reported the end
    ensures it.Remaining() <= PageLimit(pageSize) ==>
              p.names == it.names[it.pos..] && p.iter.ended && p.iter.pos == |it.names|
  {
    var n := PageLimit(pageSize);
    if it.pos + n < |it.names| then Page(it.names[it.pos..it.pos + n], it.(pos := it.pos + n + 1))
    else Page(it.names[it.pos..], it.(pos := |it.names|, ended := true))
  }

  /** The three commands queued for one name, in the order the source queues them. */
  function Triple(name: string): seq<Request>
  {
    [Ttl(name), Type(name), MemoryUsage(name)]
  }

  /** The pipeline built for a sequence of names. */
  function Queue(names: seq<string>): (reqs: seq<Request>)
    ensures |reqs| == 3 * |names|
  {
    if names == [] then [] else Queue(names[..|names| - 1]) + Triple(names[|names| - 1])
  }

  /** Command 3i, 3i+1 and 3i+2 of the pipeline are TTL, TYPE and MEMORY USAGE of name i. */
  lemma {:induction false} QueueAt(names: seq<string>, i: nat)
    requires i < |names|
    ensures Queue(names)[3 * i] == Ttl(names[i])
    ensures Queue(names)[3 * i + 1] == Type(names[i])
    ensures Queue(names)[3 * i + 2] == MemoryUsage(names[i])
    decreases |names|
  {
    if i < |names| - 1 {
      QueueAt(names[..|names| - 1], i);
    }
  }

  lemma SliceSnoc(s: seq<string>, i: nat, j: nat)
    requires i <= j < |s|
    ensures s[i..j] + [s[j]] == s[i..j + 1]
  {
  }

  lemma QueueSnoc(names: seq<string>, name: string)
    ensures Queue(names + [name]) == Queue(names) + Triple(name)
  {
    assert (names + [name])[..|names|] == names;
  }

  lemma {:induction false} QueueAppend(a: seq<string>, b: seq<string>)
    ensures Queue(a + b) == Queue(a) + Queue(b)
    decreases |b|
  {
    if b == [] {
      assert a + b == a;
    } else {
      assert (a + b)[..|a + b| - 1] == a + b[..|b| - 1];
      QueueAppend(a, b[..|b| - 1]);
    }
  }

  ghost predicate ItersValid(iters: map<string, Iter>)
  {
    forall a :: a in iters ==> iters[a].Valid()
  }

  /** The outcome of pipelining one or more nodes: the iterators afterwards, the names
      whose commands are in `cmds`, the executed commands, and the error reported. */
  datatype Round = Round(iters: map<string, Iter>, names: seq<string>, cmds: seq<Cmd>, err: Option<Error>)

  /** The iterator a call uses for a node: the registered one, or a fresh one at cursor 0. */
  function IterFor(iters: map<string, Iter>, node: Node): (it: Iter)
    requires ItersValid(iters)
    ensures it.Valid()
    ensures node.addr !in iters ==> it == StartIter(node.keyspace)
    // a registered iterator is resumed, not restarted
    ensures node.addr in iters ==> it == iters[node.addr]
  {
    if node.addr in iters then iters[node.addr] else StartIter(node.keyspace)
  }

  /** What one PipelinedCmds call does, as a function of the registry it starts from. */
  function PipelinedRound(iters: map<string, Iter>, pageSize: int, node: Node, reply: Request -> Reply): (r: Round)
    requires ItersValid(iters)
    ensures ItersValid(r.iters)
    // the node's iterator is registered, and no other entry changes
    ensures r.iters.Keys == iters.Keys + {node.addr}
    ensures forall a :: a in iters && a != node.addr ==> r.iters[a] == iters[a]
    // the node's iterator advances by exactly one page, and a round without error
    // queued exactly that page's names
    ensures r.iters[node.addr] == TakePage(IterFor(iters, node), pageSize).iter
    ensures r.err.None? ==> r.names == TakePage(IterFor(iters, node), pageSize).names
    ensures r.cmds == ExecCmds(Queue(r.names), reply)
    ensures |r.names| <= PageLimit(pageSize)
    ensures |r.cmds| <= 3 * PageLimit(pageSize)
  {
    var p := TakePage(IterFor(iters, node), pageSize);
    var next := iters[node.addr := p.iter];
    match p.iter.Failure()
    case Some(msg) => Round(next, [], [], Some(Err(msg)))
    case None => var piped := Exec(Queue(p.names), reply); Round(next, p.names, piped.cmds, piped.err)
  }

  /** Once the iterator has reported the end, a call queues nothing and reports its failure. */
  lemma ExhaustedQueuesNothing(iters: map<string, Iter>, pageSize: int, node: Node, reply: Request -> Reply)
    requires ItersValid(iters) && node.addr in iters && iters[node.addr].ended
    ensures var r := PipelinedRound(iters, pageSize, node, reply);
      r.cmds == [] && r.iters[node.addr] == iters[node.addr] &&
      r.err == (if iters[node.addr].failure.Some? then Some(Err(iters[node.addr].failure.value)) else None)
  {
    var it := iters[node.addr];
    assert it.names[it.pos..] == [];
  }

  class Scan {
    var pageSize: int
    var pattern: string
    var scanning: bool
    var iters: map<string, Iter>

    ghost predicate Valid()
      reads this
    {
      ItersValid(iters)
    }

    /** NewScan. */
    constructor (pattern: string, pageSize: int)
      ensures Valid()
      ensures this.pattern == pattern && this.pageSize == pageSize
      ensures iters == map[] && !scanning
    {
      this.pageSize := pageSize;
      this.pattern := pattern;
      this.scanning := false;
      this.iters := map[];
    }

    /** Scanning: whether a round is in flight. */
    function Scanning(): (b: bool)
      reads this
      ensures b <==> scanning
    {
      scanning
    }

    /** HasMore: only a pattern with a wildcard has further pages. */
    function HasMore(): (more: bool)
      reads this
      ensures more <==> '*' in pattern
    {
      ContainsChar(pattern, '*');
      Contains(pattern, "*")
    }

    /**
     * PipelinedCmds: registers an iterator for the node on first contact, pulls at
     * most pageSize names from it, and pipelines TTL, TYPE and MEMORY USAGE for each.
     */
    method PipelinedCmds(node: Node, reply: Request -> Reply) returns (cmds: seq<Cmd>, err: Option<Error>)
      requires Valid()
      modifies this
      ensures Valid()
      ensures pattern == old(pattern) && pageSize == old(pageSize) && scanning == old(scanning)
      ensures var r := PipelinedRound(old(iters), pageSize, node, reply);
        iters == r.iters && cmds == r.cmds && err == r.err
    {
      if node.addr !in iters {
        iters := iters[node.addr := StartIter(node.keyspace)];
      }
      var iter := iters[node.addr];
      assert iter == IterFor(old(iters), node);
      var reqs: seq<Request>;
      reqs, iter := FillPipe(iter, pageSize);
      RoundOfPage(old(iters), pageSize, node, reply, TakePage(IterFor(old(iters), node), pageSize).names, iter);
      iters := iters[node.addr := iter];
      var iterErr := iter.Failure();
      if iterErr.Some? {
        cmds, err := [], Some(Err(iterErr.value));
      } else {
        var piped := Exec(reqs, reply);
        cmds, err := piped.cmds, piped.err;
      }
    }
  }

  /**
   * The closure PipelinedCmds hands to `Pipelined`: while Next finds a name and fewer
   * than pageSize were found, queue TTL, TYPE and MEMORY USAGE for it. Returns what was
   * queued and the iterator afterwards.
   */
  method FillPipe(start: Iter, pageSize: int) returns (reqs: seq<Request>, iter: Iter)
    requires start.Valid()
    ensures TakePage(start, pageSize).iter == iter
    ensures reqs == Queue(TakePage(start, pageSize).names)
  {
    var numFound := 0;
    ghost var names: seq<string> := [];
    reqs := [];
    var step := start.Next();
    var more := step.0;
    iter := step.1;
    while more && numFound < pageSize
      invariant iter.Valid() && iter.names == start.names && iter.failure == start.failure
      invariant 0 <= numFound <= PageLimit(pageSize)
      invariant more ==> iter.pos == start.pos + numFound + 1 && !iter.ended
      invariant !more ==> iter.ended && iter.pos == |start.names| && start.pos + numFound == |start.names|
      invariant start.pos + numFound <= |start.names|
      invariant names == start.names[start.pos..start.pos + numFound]
      invariant reqs == Queue(names)
      decreases |iter.names| - iter.pos + (if more then 1 else 0)
    {
      SliceSnoc(start.names, start.pos, start.pos + numFound);
      QueueSnoc(names, iter.Val());
      numFound := numFound + 1;
      names := names + [iter.Val()];
      reqs := reqs + Triple(iter.Val());
      step := iter.Next();
      more := step.0;
      iter := step.1;
    }
    LoopExitIsPage(start, pageSize, more, numFound, iter, names);
  }

  /** PipelinedRound once the page its iterator yields is known. */
  lemma RoundOfPage(iters: map<string, Iter>, pageSize: int, node: Node, reply: Request -> Reply,
                    names: seq<string>, iter: Iter)
    requires ItersValid(iters) && TakePage(IterFor(iters, node), pageSize) == Page(names, iter)
    ensures var r := PipelinedRound(iters, pageSize, node, reply);
      && r.iters == iters[node.addr := iter]
      && (iter.Failure().Some? ==> r.cmds == [] && r.err == Some(Err(iter.Failure().value)))
      && (iter.Failure().None? ==> r.cmds == Exec(Queue(names), reply).cmds && r.err == Exec(Queue(names), reply).err)
  {
  }

  /** Where the pulling loop of PipelinedCmds stops is where TakePage says. */
  lemma LoopExitIsPage(start: Iter, pageSize: int, more: bool, numFound: nat, iter: Iter, names: seq<string>)
    requires start.Valid() && iter.Valid() && iter.names == start.names && iter.failure == start.failure
    requires !(more && numFound < pageSize)
    requires numFound <= PageLimit(pageSize) && start.pos + numFound <= |start.names|
    requires more ==> iter.pos == start.pos + numFound + 1 && !iter.ended
    requires !more ==> iter.ended && iter.pos == |start.names| && start.pos + numFound == |start.names|
    requires names == start.names[start.pos..start.pos + numFound]
    ensures TakePage(start, pageSize) == Page(names, iter)
  {
    if !start.ended {
      assert start == Iter(start.names, start.pos, start.failure, false);
    }
  }

  /** The names k successive calls queue from one iterator, concatenated. */
  function Rounds(it: Iter, pageSize: int, k: nat): seq<string>
    requires it.Valid()
    decreases k
  {
    if k == 0 then [] else
      var p := TakePage(it, pageSize);
      p.names + Rounds(p.iter, pageSize, k - 1)
  }

  /** How many rounds of page size n find more than n of r remaining names. */
  function FullRounds(r: nat, n: nat): nat
    decreases r
  {
    if r > n then 1 + FullRounds(r - n - 1, n) else 0
  }

  /**
   * Over k rounds of page size n, each full round loses one name: the first
   * FullRounds(R, n) rounds queue n names each and consume n + 1, the next queues what
   * is left; so after the full rounds every name but one per full round was queued.
   */
  lemma {:induction false} RoundsCount(it: Iter, n: nat, k: nat)
    requires it.Valid()
    ensures var f := FullRounds(it.Remaining(), n);
      |Rounds(it, n, k)| == if k <= f then k * n else it.Remaining() - f
    decreases k
  {
    var r := it.Remaining();
    if k > 0 {
      var p := TakePage(it, n);
      RoundsCount(p.iter, n, k - 1);
      var m := (k - 1) * n;
      assert k * n == m + n;
      if r > n {
        assert p.iter.Remaining() == r - n - 1;
      } else {
        assert p.iter.Remaining() == 0;
      }
    }
  }

  /** The scenario the integration test runs: 1000 keys in pages of 100 over ten
      rounds yield 991 names, the nine lost being one per full round. */
  lemma ThousandKeysTenRounds(names: seq<string>)
    requires |names| == 1000
    ensures |Rounds(StartIter(Enumeration(names, None)), 100, 10)| == 991
    ensures forall k: nat :: k <= 9 ==> |Rounds(StartIter(Enumeration(names, None)), 100, k)| == 100 * k
  {
    var it := StartIter(Enumeration(names, None));
    assert FullRounds(1000, 100) == 9 by {
      assert FullRounds(91, 100) == 0;
      assert FullRounds(192, 100) == 1;
      assert FullRounds(293, 100) == 2;
      assert FullRounds(394, 100) == 3;
      assert FullRounds(495, 100) == 4;
      assert FullRounds(596, 100) == 5;
      assert FullRounds(697, 100) == 6;
      assert FullRounds(798, 100) == 7;
      assert FullRounds(899, 100) == 8;
    }
    RoundsCount(it, 100, 10);
    forall k: nat | k <= 9
      ensures |Rounds(it, 100, k)| == 100 * k
    {
      RoundsCount(it, 100, k);
    }
  }

  /** PipelinedRound under a second name whose only ensures is that the registry stays valid.
      The session lemmas below recurse through it, so that PipelinedRound's full
      ensures are not instantiated at every step of their inductions; CleanRound
      recovers the facts they need for one round. */
  function NextRound(iters: map<string, Iter>, pageSize: int, node: Node, reply: Request -> Reply): (r: Round)
    requires ItersValid(iters)
    ensures ItersValid(r.iters)
  {
    PipelinedRound(iters, pageSize, node, reply)
  }

  /** The names k successive PipelinedCmds calls on one node queue, concatenated. */
  function SessionNames(iters: map<string, Iter>, pageSize: int, node: Node, reply: Request -> Reply, k: nat): seq<string>
    requires ItersValid(iters)
    decreases k
  {
    if k == 0 then [] else
      var r := NextRound(iters, pageSize, node, reply);
      r.names + SessionNames(r.iters, pageSize, node, reply, k - 1)
  }

  /**
   * Successive rounds on one node resume the same iterator: when neither SCAN nor any
   * queued command fails, k calls queue exactly the k pages `Rounds` describes.
   */
  lemma {:induction false} SessionRounds(iters: map<string, Iter>, pageSize: int, node: Node, reply: Request -> Reply, k: nat)
    requires ItersValid(iters) && IterFor(iters, node).failure.None?
    requires forall q: Request :: IsValue(reply(q))
    ensures SessionNames(iters, pageSize, node, reply, k) == Rounds(IterFor(iters, node), pageSize, k)
    decreases k
  {
    if k > 0 {
      var r := NextRound(iters, pageSize, node, reply);
      CleanRound(iters, pageSize, node, reply);
      SessionRounds(r.iters, pageSize, node, reply, k - 1);
    }
  }

  /** A round in which neither SCAN nor any command fails queues its page and leaves the
      node's iterator where the page ends. */
  lemma CleanRound(iters: map<string, Iter>, pageSize: int, node: Node, reply: Request -> Reply)
    requires ItersValid(iters) && IterFor(iters, node).failure.None?
    requires forall q: Request :: IsValue(reply(q))
    ensures var r, p := NextRound(iters, pageSize, node, reply), TakePage(IterFor(iters, node), pageSize);
      r.err.None? && r.names == p.names && IterFor(r.iters, node) == p.iter && p.iter.failure.None?
  {
    var p := TakePage(IterFor(iters, node), pageSize);
    assert p.iter.Failure().None?;
    var reqs := Queue(p.names);
    assert forall i :: 0 <= i < |reqs| ==> IsValue(reply(reqs[i]));
    assert FirstErr(reqs, reply).None?;
  }

  /** The integration test's scenario on a fresh session: ten rounds of 100 over 1000
      keys queue 991 names, and 100 per round before that. */
  lemma SessionThousandKeys(node: Node, reply: Request -> Reply)
    requires |node.keyspace.names| == 1000 && node.keyspace.failure.None?
    requires forall q: Request :: IsValue(reply(q))
    ensures |SessionNames(map[], 100, node, reply, 10)| == 991
    ensures forall k: nat :: k <= 9 ==> |SessionNames(map[], 100, node, reply, k)| == 100 * k
  {
    assert node.keyspace == Enumeration(node.keyspace.names, None);
    ThousandKeysTenRounds(node.keyspace.names);
    SessionRounds(map[], 100, node, reply, 10);
    forall k: nat | k <= 9
      ensures |SessionNames(map[], 100, node, reply, k)| == 100 * k
    {
      SessionRounds(map[], 100, node, reply, k);
    }
  }

  /** The loop with its tests in the intended order (`numFound < s.pageSize && iter.Next(ctx)`):
      the count is tested first, so no name is consumed without being queued. */
  function TakePageFixed(it: Iter, pageSize: int): (p: Page)
    requires it.Valid()
    ensures p.iter.Valid() && p.iter.names == it.names && p.iter.failure == it.failure
    ensures it.pos <= p.iter.pos && p.names == it.names[it.pos..p.iter.pos]
    ensures |p.names| == if it.Remaining() < PageLimit(pageSize) then it.Remaining() else PageLimit(pageSize)
  {
    var n := PageLimit(pageSize);
    if it.pos + n <= |it.names| then Page(it.names[it.pos..it.pos + n], it.(pos := it.pos + n))
    else Page(it.names[it.pos..], it.(pos := |it.names|, ended := true))
  }

  function RoundsFixed(it: Iter, pageSize: int, k: nat): seq<string>
    requires it.Valid()
    decreases k
  {
    if k == 0 then [] else
      var p := TakePageFixed(it, pageSize);
      p.names + RoundsFixed(p.iter, pageSize, k - 1)
  }

  /** With the intended loop, k rounds of page size n queue exactly the next k * n names
      (or all that remain), in order, losing none. */
  lemma {:induction false} RoundsFixedLoseNothing(it: Iter, n: nat, k: nat)
    requires it.Valid()
    ensures var end := it.pos + k * n;
      RoundsFixed(it, n, k) == if end <= |it.names| then it.names[it.pos..end] else it.names[it.pos..]
  {
    RoundsFixedTake(it, n, k, k * n);
  }

  lemma {:induction false} RoundsFixedTake(it: Iter, n: nat, k: nat, total: nat)
    requires it.Valid() && total == k * n
    ensures RoundsFixed(it, n, k) ==
      if it.pos + total <= |it.names| then it.names[it.pos..it.pos + total] else it.names[it.pos..]
    decreases k
  {
    if k > 0 {
      MulPred(k, n);
      var p := TakePageFixed(it, n);
      RoundsFixedTake(p.iter, n, k - 1, total - n);
      if it.pos + total <= |it.names| {
        assert p.iter.pos == it.pos + n;
        assert it.names[it.pos..it.pos + total] == p.names + it.names[it.pos + n..it.pos + total];
      } else if it.pos + n <= |it.names| {
        assert p.iter.pos == it.pos + n;
        assert it.names[it.pos..] == p.names + it.names[it.pos + n..];
      } else {
        assert p.iter.pos == |it.names|;
      }
    }
  }

  lemma MulPred(k: nat, n: nat)
    requires k > 0
    ensures k * n == (k - 1) * n + n && k * n >= n
  {
  }
}
