/**
 * One scan round and the value renderer (internal/data/data.go): choosing between
 * enumeration and exact lookup, turning errors into data, merging the pipelined
 * replies into one Key per name, emitting the keys, and rendering a key's value.
 */
module Data {
  import opened Wrappers
  import opened Redis
  import opened Strings
  import opened ScanSession

  /** Key: a discovered key and its metadata; ttl is -1 for "no expiry". */
  datatype Key = Key(name: string, dataType: string, size: nat, ttl: int)

  /** The entry that carries a round's error through the data path. */
  function ErrorKey(text: string): Key
  {
    Key(text, "error", 0, -1)
  }

  /** Standalone (one node) or cluster (one entry per primary, in the order they are visited). */
  datatype Client = Standalone(node: Node) | Cluster(masters: seq<Node>)

  // ----- which key a command is about -----

  /** The argument lists the merge can index without going out of range. */
  predicate ArgsInRange(args: seq<Arg>)
  {
    |args| >= 2 && (args[1] == Str("usage") ==> |args| >= 3)
  }

  /** The key of a command as the merge loop reads it: Args()[1], or Args()[2] when
      Args()[1] is "usage"; None when that argument is not a string. */
  function KeyArgAsWritten(args: seq<Arg>): (r: Option<string>)
    requires ArgsInRange(args)
    // the key is read from index 2 whenever index 1 is "usage", whatever the command
    ensures (var i := if args[1] == Str("usage") then 2 else 1;
      (r.Some? <==> args[i].Str?) && (r.Some? ==> r.value == args[i].s))
  {
    match args[1]
    case Num(_) => None
    case Str(k) =>
      if k == "usage" then (match args[2] case Str(k2) => Some(k2) case Num(_) => None)
      else Some(k)
  }

  /** A TTL or TYPE command for a key named "usage" has only two arguments, so the
      merge loop reads Args()[2] past the end of the list. */
  lemma UsageKeyOutOfRange(reply: Reply)
    ensures !ArgsInRange(Bind(Ttl("usage"), reply).args)
    ensures !ArgsInRange(Bind(Type("usage"), reply).args)
    ensures ArgsInRange(Bind(MemoryUsage("usage"), reply).args)
  {
  }

  /** For every other key the reading as written recovers the key the command was queued for. */
  lemma KeyArgAsWrittenRecoversKey(r: Request, reply: Reply)
    requires r.key != "usage"
    ensures ArgsInRange(Bind(r, reply).args)
    ensures KeyArgAsWritten(Bind(r, reply).args) == Some(r.key)
  {
  }

  /** The key of a command, reading Args()[2] only for MEMORY USAGE (whose Args()[1] is
      the sub-command "usage"); None when that argument is not a string. */
  function KeyArg(args: seq<Arg>): (r: Option<string>)
    requires |args| >= 2
    // index 2 only for MEMORY USAGE itself; any other command names its key at index 1
    ensures (var i := if |args| >= 3 && args[0] == Str("memory") && args[1] == Str("usage") then 2 else 1;
      (r.Some? <==> args[i].Str?) && (r.Some? ==> r.value == args[i].s))
  {
    var a := if |args| >= 3 && args[0] == Str("memory") && args[1] == Str("usage") then args[2] else args[1];
    match a
    case Str(k) => Some(k)
    case Num(_) => None
  }

  /** Every executed command is attributed to the key it was queued for. */
  lemma KeyArgRecoversKey(r: Request, reply: Reply)
    ensures |Bind(r, reply).args| >= 2
    ensures KeyArg(Bind(r, reply).args) == Some(r.key)
  {
  }

  // ----- merging executed commands into keys -----

  ghost predicate WellFormedCmds(cmds: seq<Cmd>)
  {
    forall i :: 0 <= i < |cmds| ==> |cmds[i].args| >= 2
  }

  /** Every entry of the map is the Key of the name it is stored under. */
  ghost predicate NamedByKey(keys: map<string, Key>)
  {
    forall n :: n in keys ==> keys[n].name == n
  }

  /** The entry a command updates: the one already merged for its name, or a new one. */
  function Entry(keys: map<string, Key>, name: string): Key
  {
    if name in keys then keys[name] else Key(name, "", 0, 0)
  }

  /** What one command of the merge loop does to the map of keys. */
  function MergeStep(keys: map<string, Key>, c: Cmd): map<string, Key>
    requires |c.args| >= 2
  {
    match KeyArg(c.args)
    case None => keys
    case Some(name) =>
      var k := Entry(keys, name);
      match c
      case DurationCmd(_, d) => keys[name := k.(ttl := d)]
      case StatusCmd(_, t) => keys[name := k.(dataType := t)]
      case IntCmd(_, v) => keys[name := if v >= 0 then k.(size := v) else k]
      case OtherCmd(_) => keys[name := k]
  }

  /** A command whose key is not a string is skipped; otherwise only its own key's
      entry is created or updated, and that entry keeps the key's name. */
  lemma MergeStepOwnKey(keys: map<string, Key>, c: Cmd)
    requires |c.args| >= 2
    ensures KeyArg(c.args).None? ==> MergeStep(keys, c) == keys
    ensures KeyArg(c.args).Some? ==> var name, r := KeyArg(c.args).value, MergeStep(keys, c);
      && r.Keys == keys.Keys + {name}
      && (forall n :: n in keys && n != name ==> r[n] == keys[n])
      && r[name].name == Entry(keys, name).name
  {
  }

  /** The merge of cmds, in order, into an initial map. */
  function MergeInto(keys: map<string, Key>, cmds: seq<Cmd>): (r: map<string, Key>)
    requires WellFormedCmds(cmds)
    ensures keys.Keys <= r.Keys
    ensures NamedByKey(keys) ==> NamedByKey(r)
    decreases |cmds|
  {
    if cmds == [] then keys
    else
      var init := cmds[..|cmds| - 1];
      assert forall i :: 0 <= i < |init| ==> init[i] == cmds[i];
      MergeStep(MergeInto(keys, init), cmds[|cmds| - 1])
  }

  lemma MergeIntoSnoc(keys: map<string, Key>, a: seq<Cmd>, c: Cmd)
    requires WellFormedCmds(a) && |c.args| >= 2
    ensures WellFormedCmds(a + [c])
    ensures MergeInto(keys, a + [c]) == MergeStep(MergeInto(keys, a), c)
  {
    assert (a + [c])[..|a|] == a;
  }

  function Merge(cmds: seq<Cmd>): map<string, Key>
    requires WellFormedCmds(cmds)
  {
    MergeInto(map[], cmds)
  }

  lemma {:induction false} MergeIntoAppend(keys: map<string, Key>, a: seq<Cmd>, b: seq<Cmd>)
    requires WellFormedCmds(a) && WellFormedCmds(b)
    ensures WellFormedCmds(a + b)
    ensures MergeInto(keys, a + b) == MergeInto(MergeInto(keys, a), b)
    decreases |b|
  {
    if b == [] {
      assert a + b == a;
    } else {
      assert (a + b)[..|a + b| - 1] == a + b[..|b| - 1];
      MergeIntoAppend(keys, a, b[..|b| - 1]);
    }
  }

  /** The Key the store's replies describe for one name: type from TYPE, size from
      MEMORY USAGE when it is not negative (0 otherwise), ttl from TTL. */
  function KeyFor(name: string, reply: Request -> Reply): Key
  {
    var usage := IntValue(reply(MemoryUsage(name)));
    Key(name, StatusValue(reply(Type(name))), if usage >= 0 then usage else 0, IntValue(reply(Ttl(name))))
  }

  lemma MergeTtl(keys: map<string, Key>, name: string, reply: Request -> Reply)
    ensures |Bind(Ttl(name), reply(Ttl(name))).args| >= 2
    ensures MergeStep(keys, Bind(Ttl(name), reply(Ttl(name))))
         == keys[name := Entry(keys, name).(ttl := IntValue(reply(Ttl(name))))]
  {
    KeyArgRecoversKey(Ttl(name), reply(Ttl(name)));
  }

  lemma MergeType(keys: map<string, Key>, name: string, reply: Request -> Reply)
    ensures |Bind(Type(name), reply(Type(name))).args| >= 2
    ensures MergeStep(keys, Bind(Type(name), reply(Type(name))))
         == keys[name := Entry(keys, name).(dataType := StatusValue(reply(Type(name))))]
  {
    KeyArgRecoversKey(Type(name), reply(Type(name)));
  }

  lemma MergeUsage(keys: map<string, Key>, name: string, reply: Request -> Reply)
    ensures |Bind(MemoryUsage(name), reply(MemoryUsage(name))).args| >= 2
    ensures var v := IntValue(reply(MemoryUsage(name)));
      MergeStep(keys, Bind(MemoryUsage(name), reply(MemoryUsage(name))))
         == keys[name := if v >= 0 then Entry(keys, name).(size := v) else Entry(keys, name)]
  {
    KeyArgRecoversKey(MemoryUsage(name), reply(MemoryUsage(name)));
  }

  /** One Key per distinct name, each from that name's own replies. */
  function KeysFor(names: seq<string>, reply: Request -> Reply): map<string, Key>
  {
    map n | n in names :: KeyFor(n, reply)
  }

  lemma KeysForSnoc(names: seq<string>, last: string, reply: Request -> Reply)
    ensures KeysFor(names + [last], reply) == KeysFor(names, reply)[last := KeyFor(last, reply)]
  {
  }

  /** The three replies of one name turn whatever the map held for it into its KeyFor. */
  lemma MergeTriple(keys: map<string, Key>, name: string, reply: Request -> Reply)
    requires name in keys ==> keys[name] == KeyFor(name, reply)
    ensures WellFormedCmds(ExecCmds(Triple(name), reply))
    ensures MergeInto(keys, ExecCmds(Triple(name), reply)) == keys[name := KeyFor(name, reply)]
  {
    var t0 := Bind(Ttl(name), reply(Ttl(name)));
    var t1 := Bind(Type(name), reply(Type(name)));
    var t2 := Bind(MemoryUsage(name), reply(MemoryUsage(name)));
    assert ExecCmds(Triple(name), reply) == [t0] + [t1] + [t2];
    var v := IntValue(reply(MemoryUsage(name)));
    var k1 := Entry(keys, name).(ttl := IntValue(reply(Ttl(name))));
    var k2 := k1.(dataType := StatusValue(reply(Type(name))));
    var k3 := if v >= 0 then k2.(size := v) else k2;
    assert k3 == KeyFor(name, reply);
    MergeTtl(keys, name, reply);
    var m1 := keys[name := k1];
    MergeType(m1, name, reply);
    var m2 := keys[name := k2];
    assert m1[name := k2] == m2;
    MergeUsage(m2, name, reply);
    assert m2[name := k3] == keys[name := k3];
    assert [t0] == [] + [t0];
    MergeIntoSnoc(keys, [], t0);
    MergeIntoSnoc(keys, [t0], t1);
    MergeIntoSnoc(keys, [t0] + [t1], t2);
  }

  /**
   * Pairing replies back to names: merging the executed pipeline of any sequence of
   * names (repeats included) gives exactly one Key per distinct name, built from that
   * name's own TTL, TYPE and MEMORY USAGE replies.
   */
  lemma {:induction false} MergeQueue(names: seq<string>, reply: Request -> Reply)
    ensures WellFormedCmds(ExecCmds(Queue(names), reply))
    ensures Merge(ExecCmds(Queue(names), reply)) == KeysFor(names, reply)
    decreases |names|
  {
    if names != [] {
      MergeQueue(names[..|names| - 1], reply);
      MergeQueueLast(names, reply);
    }
  }

  lemma MergeQueueLast(names: seq<string>, reply: Request -> Reply)
    requires names != []
    requires WellFormedCmds(ExecCmds(Queue(names[..|names| - 1]), reply))
    requires Merge(ExecCmds(Queue(names[..|names| - 1]), reply)) == KeysFor(names[..|names| - 1], reply)
    ensures WellFormedCmds(ExecCmds(Queue(names), reply))
    ensures Merge(ExecCmds(Queue(names), reply)) == KeysFor(names, reply)
  {
    var init, last := names[..|names| - 1], names[|names| - 1];
    var a, b := ExecCmds(Queue(init), reply), ExecCmds(Triple(last), reply);
    assert Queue(names) == Queue(init) + Triple(last);
    ExecCmdsAppend(Queue(init), Triple(last), reply);
    MergeTriple(KeysFor(init, reply), last, reply);
    MergeIntoAppend(map[], a, b);
    KeysForLast(names, reply);
  }

  lemma KeysForLast(names: seq<string>, reply: Request -> Reply)
    requires names != []
    ensures KeysFor(names, reply) == KeysFor(names[..|names| - 1], reply)[names[|names| - 1] := KeyFor(names[|names| - 1], reply)]
  {
    assert names == names[..|names| - 1] + [names[|names| - 1]];
    KeysForSnoc(names[..|names| - 1], names[|names| - 1], reply);
  }

  /** The merge loop of ScanAsync, building the map in place. */
  method MergeCmds(cmds: seq<Cmd>) returns (keys: map<string, Key>)
    requires WellFormedCmds(cmds)
    ensures keys == Merge(cmds)
  {
    keys := map[];
    for i := 0 to |cmds|
      invariant keys == MergeInto(map[], cmds[..i])
    {
      assert cmds[..i + 1][..i] == cmds[..i];
      var c := cmds[i];
      var key := KeyArg(c.args);
      if key.None? {
        continue;
      }
      var name := key.value;
      if name !in keys {
        keys := keys[name := Key(name, "", 0, 0)];
      }
      match c {
        case DurationCmd(_, d) => keys := keys[name := keys[name].(ttl := d)];
        case StatusCmd(_, t) => keys := keys[name := keys[name].(dataType := t)];
        case IntCmd(_, v) =>
          if v >= 0 {
            keys := keys[name := keys[name].(size := v)];
          }
        case OtherCmd(_) =>
      }
    }
    assert cmds[..|cmds|] == cmds;
  }

  // ----- emitting keys -----

  function NamesOf(out: seq<Key>): set<string>
  {
    set i | 0 <= i < |out| :: out[i].name
  }

  /**
   * What a consumer receives from the emitting loop: entries of the map, each name at
   * most once, no more than cancelAfter of them, and all of them unless the context
   * was cancelled after cancelAfter sends.
   */
  ghost predicate Emitted(out: seq<Key>, keys: map<string, Key>, cancelAfter: Option<nat>)
  {
    && (forall i :: 0 <= i < |out| ==> out[i].name in keys && keys[out[i].name] == out[i])
    && (forall i, j :: 0 <= i < j < |out| ==> out[i].name != out[j].name)
    && (cancelAfter.Some? ==> |out| <= cancelAfter.value)
    && (NamesOf(out) == keys.Keys || (cancelAfter.Some? && |out| == cancelAfter.value))
  }

  /**
   * The sending loop: every merged key, in the map's (unspecified) iteration order,
   * until the context is done. cancelAfter is the number of sends the consumer takes
   * before the context is cancelled (None: never cancelled).
   */
  method Emit(keys: map<string, Key>, cancelAfter: Option<nat>) returns (out: seq<Key>)
    requires NamedByKey(keys)
    ensures Emitted(out, keys, cancelAfter)
  {
    out := [];
    var pending := keys.Keys;
    while pending != {}
      invariant pending <= keys.Keys
      invariant NamesOf(out) !! pending && NamesOf(out) + pending == keys.Keys
      invariant forall i :: 0 <= i < |out| ==> out[i].name in keys && keys[out[i].name] == out[i]
      invariant forall i, j :: 0 <= i < j < |out| ==> out[i].name != out[j].name
      invariant cancelAfter.Some? ==> |out| <= cancelAfter.value
      decreases pending
    {
      if cancelAfter.Some? && |out| == cancelAfter.value {
        return;
      }
      var name :| name in pending;
      assert NamesOf(out + [keys[name]]) == NamesOf(out) + {name} by {
        assert forall i :: 0 <= i < |out| ==> (out + [keys[name]])[i] == out[i];
        assert (out + [keys[name]])[|out|] == keys[name];
      }
      out := out + [keys[name]];
      pending := pending - {name};
    }
  }

  // ----- one round -----

  /** The addresses of the primaries. */
  function Addrs(masters: seq<Node>): set<string>
  {
    set m | m in masters :: m.addr
  }

  /** Cluster fan-out: each primary in turn (the mutex serialises the callbacks); the
      commands of the primaries that succeeded, and the first error any primary reported. */
  function Fanout(iters: map<string, Iter>, pageSize: int, masters: seq<Node>, reply: Request -> Reply): (r: Round)
    requires ItersValid(iters)
    ensures ItersValid(r.iters)
    ensures r.cmds == ExecCmds(Queue(r.names), reply)
    decreases |masters|
  {
    if masters == [] then
      Round(iters, [], [], None)
    else
      var before := Fanout(iters, pageSize, masters[..|masters| - 1], reply);
      var shard := PipelinedRound(before.iters, pageSize, masters[|masters| - 1], reply);
      QueueAppend(before.names, shard.names);
      ExecCmdsAppend(Queue(before.names), Queue(shard.names), reply);
      Round(shard.iters,
            if shard.err.None? then before.names + shard.names else before.names,
            if shard.err.None? then before.cmds + shard.cmds else before.cmds,
            if before.err.Some? then before.err else shard.err)
  }

  /** Every primary has its iterator registered after the fan-out; no other entry is
      added or changed. */
  lemma {:induction false} FanoutRegisters(iters: map<string, Iter>, pageSize: int, masters: seq<Node>, reply: Request -> Reply)
    requires ItersValid(iters)
    ensures var r := Fanout(iters, pageSize, masters, reply);
      && r.iters.Keys == iters.Keys + Addrs(masters)
      && forall a :: a in iters && a !in Addrs(masters) ==> r.iters[a] == iters[a]
    decreases |masters|
  {
    if masters != [] {
      var init := masters[..|masters| - 1];
      FanoutRegisters(iters, pageSize, init, reply);
      AddrsSnoc(masters);
      var before := Fanout(iters, pageSize, init, reply);
      assert Fanout(iters, pageSize, masters, reply).iters
          == PipelinedRound(before.iters, pageSize, masters[|masters| - 1], reply).iters;
    }
  }

  /** The fan-out queues at most one page per primary. */
  lemma {:induction false} FanoutBound(iters: map<string, Iter>, pageSize: int, masters: seq<Node>, reply: Request -> Reply)
    requires ItersValid(iters)
    ensures |Fanout(iters, pageSize, masters, reply).names| <= |masters| * PageLimit(pageSize)
    decreases |masters|
  {
    if masters != [] {
      var init := masters[..|masters| - 1];
      FanoutBound(iters, pageSize, init, reply);
      MulPred(|masters|, PageLimit(pageSize));
      var before := Fanout(iters, pageSize, init, reply);
      var shard := PipelinedRound(before.iters, pageSize, masters[|masters| - 1], reply);
      assert |Fanout(iters, pageSize, masters, reply).names| <= |before.names| + |shard.names|;
    }
  }

  lemma AddrsSnoc(masters: seq<Node>)
    requires masters != []
    ensures Addrs(masters) == Addrs(masters[..|masters| - 1]) + {masters[|masters| - 1].addr}
  {
    assert masters == masters[..|masters| - 1] + [masters[|masters| - 1]];
  }

  /** The error each primary's round reports, in visiting order; each round runs on
      the iterators the primaries before it left. */
  function ShardErrs(iters: map<string, Iter>, pageSize: int, masters: seq<Node>, reply: Request -> Reply): (errs: seq<Option<Error>>)
    requires ItersValid(iters)
    ensures |errs| == |masters|
    decreases |masters|
  {
    if masters == [] then []
    else
      var init := masters[..|masters| - 1];
      var before := Fanout(iters, pageSize, init, reply);
      ShardErrs(iters, pageSize, init, reply) + [PipelinedRound(before.iters, pageSize, masters[|masters| - 1], reply).err]
  }

  /** The first error of a sequence: none when there is none, else the earliest one. */
  function FirstSome(errs: seq<Option<Error>>): (e: Option<Error>)
    ensures e.None? <==> forall i :: 0 <= i < |errs| ==> errs[i].None?
    ensures e.Some? ==> exists i :: 0 <= i < |errs| && errs[i] == e && forall j :: 0 <= j < i ==> errs[j].None?
    decreases |errs|
  {
    if errs == [] then None
    else
      var init := errs[..|errs| - 1];
      assert forall i :: 0 <= i < |init| ==> init[i] == errs[i];
      var f := FirstSome(init);
      if f.Some? then f else errs[|errs| - 1]
  }

  /** ForEachMaster's error is that of the first primary whose round failed, and none
      when every primary's round succeeded. */
  lemma {:induction false} FanoutFirstError(iters: map<string, Iter>, pageSize: int, masters: seq<Node>, reply: Request -> Reply)
    requires ItersValid(iters)
    ensures Fanout(iters, pageSize, masters, reply).err == FirstSome(ShardErrs(iters, pageSize, masters, reply))
    decreases |masters|
  {
    if masters != [] {
      var init := masters[..|masters| - 1];
      FanoutFirstError(iters, pageSize, init, reply);
      var before := Fanout(iters, pageSize, init, reply);
      var shard := PipelinedRound(before.iters, pageSize, masters[|masters| - 1], reply);
      assert ShardErrs(iters, pageSize, masters, reply) == ShardErrs(iters, pageSize, init, reply) + [shard.err];
      FirstSomeSnoc(ShardErrs(iters, pageSize, init, reply), shard.err);
      assert Fanout(iters, pageSize, masters, reply).err == if before.err.Some? then before.err else shard.err;
    }
  }

  lemma FirstSomeSnoc(errs: seq<Option<Error>>, e: Option<Error>)
    ensures FirstSome(errs + [e]) == if FirstSome(errs).Some? then FirstSome(errs) else e
  {
    assert (errs + [e])[..|errs|] == errs;
  }

  /** Primaries with pairwise different addresses, as a cluster's are. */
  predicate DistinctAddrs(masters: seq<Node>)
  {
    forall i, j :: 0 <= i < j < |masters| ==> masters[i].addr != masters[j].addr
  }

  /** The names each primary's round would queue on its own, concatenated in visiting
      order, leaving out the primaries whose round fails. */
  function PagesOf(iters: map<string, Iter>, pageSize: int, masters: seq<Node>, reply: Request -> Reply): seq<string>
    requires ItersValid(iters)
    decreases |masters|
  {
    if masters == [] then []
    else
      var shard := PipelinedRound(iters, pageSize, masters[|masters| - 1], reply);
      PagesOf(iters, pageSize, masters[..|masters| - 1], reply) + (if shard.err.None? then shard.names else [])
  }

  /** PipelinedRound's page, commands and error depend only on the node's own iterator. */
  lemma PipelinedRoundLocal(a: map<string, Iter>, b: map<string, Iter>, pageSize: int, node: Node, reply: Request -> Reply)
    requires ItersValid(a) && ItersValid(b) && IterFor(a, node) == IterFor(b, node)
    ensures var ra, rb := PipelinedRound(a, pageSize, node, reply), PipelinedRound(b, pageSize, node, reply);
      ra.names == rb.names && ra.cmds == rb.cmds && ra.err == rb.err && ra.iters[node.addr] == rb.iters[node.addr]
  {
  }

  /** The last primary's address is none of the earlier ones. */
  lemma LastNotEarlier(masters: seq<Node>)
    requires DistinctAddrs(masters) && masters != []
    ensures DistinctAddrs(masters[..|masters| - 1])
    ensures masters[|masters| - 1].addr !in Addrs(masters[..|masters| - 1])
  {
    var n := |masters| - 1;
    var init := masters[..n];
    forall m | m in init
      ensures m.addr != masters[n].addr
    {
      var i :| 0 <= i < n && init[i] == m;
      assert masters[i] == m;
    }
  }

  /** The primaries before the last one leave the last one's iterator alone. */
  lemma LastUntouched(iters: map<string, Iter>, pageSize: int, masters: seq<Node>, reply: Request -> Reply)
    requires ItersValid(iters) && DistinctAddrs(masters) && masters != []
    ensures DistinctAddrs(masters[..|masters| - 1])
    ensures var last := masters[|masters| - 1];
      IterFor(Fanout(iters, pageSize, masters[..|masters| - 1], reply).iters, last) == IterFor(iters, last)
  {
    LastNotEarlier(masters);
    FanoutRegisters(iters, pageSize, masters[..|masters| - 1], reply);
  }

  /** The error each primary's round would report if it ran alone on the given iterators. */
  function AloneErrs(iters: map<string, Iter>, pageSize: int, masters: seq<Node>, reply: Request -> Reply): seq<Option<Error>>
    requires ItersValid(iters)
  {
    seq(|masters|, i requires 0 <= i < |masters| => NextRound(iters, pageSize, masters[i], reply).err)
  }

  lemma AloneErrsSnoc(iters: map<string, Iter>, pageSize: int, masters: seq<Node>, reply: Request -> Reply)
    requires ItersValid(iters) && masters != []
    ensures var n := |masters| - 1;
      AloneErrs(iters, pageSize, masters, reply)
        == AloneErrs(iters, pageSize, masters[..n], reply) + [NextRound(iters, pageSize, masters[n], reply).err]
  {
  }

  /**
   * With distinct addresses the primaries do not disturb one another: each primary's
   * round reports the error it would report alone.
   */
  lemma {:induction false} ShardErrsAlone(iters: map<string, Iter>, pageSize: int, masters: seq<Node>, reply: Request -> Reply)
    requires ItersValid(iters) && DistinctAddrs(masters)
    ensures ShardErrs(iters, pageSize, masters, reply) == AloneErrs(iters, pageSize, masters, reply)
    decreases |masters|
  {
    if masters != [] {
      var init := masters[..|masters| - 1];
      LastUntouched(iters, pageSize, masters, reply);
      ShardErrsAlone(iters, pageSize, init, reply);
      ShardErrsSnoc(iters, pageSize, masters, reply);
      AloneErrsSnoc(iters, pageSize, masters, reply);
    }
  }

  /** The last primary's error, with distinct addresses, is that of its round alone. */
  lemma ShardErrsSnoc(iters: map<string, Iter>, pageSize: int, masters: seq<Node>, reply: Request -> Reply)
    requires ItersValid(iters) && DistinctAddrs(masters) && masters != []
    ensures var n := |masters| - 1;
      ShardErrs(iters, pageSize, masters, reply)
        == ShardErrs(iters, pageSize, masters[..n], reply) + [NextRound(iters, pageSize, masters[n], reply).err]
  {
    var n := |masters| - 1;
    LastUntouched(iters, pageSize, masters, reply);
    PipelinedRoundLocal(Fanout(iters, pageSize, masters[..n], reply).iters, iters, pageSize, masters[n], reply);
  }

  /** The last primary's iterator ends one page further on than where it stood. */
  lemma FanoutLastIter(iters: map<string, Iter>, pageSize: int, masters: seq<Node>, reply: Request -> Reply)
    requires ItersValid(iters) && DistinctAddrs(masters) && masters != []
    ensures var last, r := masters[|masters| - 1], Fanout(iters, pageSize, masters, reply);
      last.addr in r.iters && r.iters[last.addr] == TakePage(IterFor(iters, last), pageSize).iter
  {
    var n := |masters| - 1;
    LastUntouched(iters, pageSize, masters, reply);
    var before := Fanout(iters, pageSize, masters[..n], reply);
    assert Fanout(iters, pageSize, masters, reply).iters == PipelinedRound(before.iters, pageSize, masters[n], reply).iters;
  }

  /** The last primary's round leaves every other address's iterator as it was. */
  lemma FanoutKeepsOthers(iters: map<string, Iter>, pageSize: int, masters: seq<Node>, reply: Request -> Reply, a: string)
    requires ItersValid(iters) && masters != [] && a != masters[|masters| - 1].addr
    requires a in Fanout(iters, pageSize, masters[..|masters| - 1], reply).iters
    ensures var before, r := Fanout(iters, pageSize, masters[..|masters| - 1], reply), Fanout(iters, pageSize, masters, reply);
      a in r.iters && r.iters[a] == before.iters[a]
  {
    var n := |masters| - 1;
    var before := Fanout(iters, pageSize, masters[..n], reply);
    assert Fanout(iters, pageSize, masters, reply).iters == PipelinedRound(before.iters, pageSize, masters[n], reply).iters;
  }

  /** With distinct addresses, the fan-out queues the pages of the primaries whose own
      round succeeded, in visiting order. */
  lemma {:induction false} FanoutNames(iters: map<string, Iter>, pageSize: int, masters: seq<Node>, reply: Request -> Reply)
    requires ItersValid(iters) && DistinctAddrs(masters)
    ensures Fanout(iters, pageSize, masters, reply).names == PagesOf(iters, pageSize, masters, reply)
    decreases |masters|
  {
    if masters != [] {
      var n := |masters| - 1;
      var init, last := masters[..n], masters[n];
      LastUntouched(iters, pageSize, masters, reply);
      FanoutNames(iters, pageSize, init, reply);
      var before := Fanout(iters, pageSize, init, reply);
      PipelinedRoundLocal(before.iters, iters, pageSize, last, reply);
      var shard := PipelinedRound(before.iters, pageSize, last, reply);
      assert Fanout(iters, pageSize, masters, reply).names
          == if shard.err.None? then before.names + shard.names else before.names;
    }
  }

  /** With distinct addresses, the i-th primary's iterator ends one page further on. */
  lemma {:induction false} FanoutIterAt(iters: map<string, Iter>, pageSize: int, masters: seq<Node>, reply: Request -> Reply, i: nat)
    requires ItersValid(iters) && DistinctAddrs(masters) && i < |masters|
    ensures masters[i].addr in Fanout(iters, pageSize, masters, reply).iters
    ensures Fanout(iters, pageSize, masters, reply).iters[masters[i].addr] == TakePage(IterFor(iters, masters[i]), pageSize).iter
    decreases |masters|
  {
    var n := |masters| - 1;
    if i == n {
      FanoutLastIter(iters, pageSize, masters, reply);
    } else {
      var init := masters[..n];
      LastUntouched(iters, pageSize, masters, reply);
      FanoutIterAt(iters, pageSize, init, reply, i);
      assert init[i] == masters[i] && masters[i].addr != masters[n].addr;
      FanoutKeepsOthers(iters, pageSize, masters, reply, masters[i].addr);
    }
  }

  /** With distinct addresses, every primary's iterator ends one page further on. */
  lemma FanoutIters(iters: map<string, Iter>, pageSize: int, masters: seq<Node>, reply: Request -> Reply)
    requires ItersValid(iters) && DistinctAddrs(masters)
    ensures var r := Fanout(iters, pageSize, masters, reply);
      forall i :: 0 <= i < |masters| ==>
        masters[i].addr in r.iters && r.iters[masters[i].addr] == TakePage(IterFor(iters, masters[i]), pageSize).iter
  {
    forall i | 0 <= i < |masters|
      ensures var r := Fanout(iters, pageSize, masters, reply);
        masters[i].addr in r.iters && r.iters[masters[i].addr] == TakePage(IterFor(iters, masters[i]), pageSize).iter
    {
      FanoutIterAt(iters, pageSize, masters, reply, i);
    }
  }

  /** The commands of one round: per node through PipelinedCmds when the pattern has a
      wildcard, otherwise TTL, TYPE and MEMORY USAGE of the pattern itself. */
  function Gather(d: Client, pattern: string, pageSize: int, iters: map<string, Iter>, reply: Request -> Reply): (r: Round)
    requires ItersValid(iters)
    ensures ItersValid(r.iters)
    ensures r.cmds == ExecCmds(Queue(r.names), reply)
    // with a wildcard: one PipelinedCmds round, or the fan-out over the primaries
    ensures Contains(pattern, "*") && d.Standalone? ==> r == PipelinedRound(iters, pageSize, d.node, reply)
    ensures Contains(pattern, "*") && d.Cluster? ==> r == Fanout(iters, pageSize, d.masters, reply)
    // without: TTL, TYPE and MEMORY USAGE of the pattern itself, no iterator touched
    ensures !Contains(pattern, "*") ==>
      r.iters == iters && r.names == [pattern] && r.err == FirstErr(Triple(pattern), reply)
  {
    if Contains(pattern, "*") then
      match d
      case Standalone(node) => PipelinedRound(iters, pageSize, node, reply)
      case Cluster(masters) => Fanout(iters, pageSize, masters, reply)
    else
      var piped := Exec(Triple(pattern), reply);
      assert Queue([pattern]) == Triple(pattern) by {
        assert [pattern][..0] == [];
      }
      Round(iters, [pattern], piped.cmds, piped.err)
  }

  /** What a round hands to its consumer before ordering and cancellation. */
  datatype Outcome = NoKeys | ErrorEntry(key: Key) | Keys(keys: map<string, Key>)

  function OutcomeOf(r: Round): Outcome
    requires WellFormedCmds(r.cmds)
  {
    Classify(r.cmds, r.err)
  }

  /** redis.Nil: nothing; another error: the error entry; otherwise the merged keys. */
  function Classify(cmds: seq<Cmd>, err: Option<Error>): (o: Outcome)
    requires WellFormedCmds(cmds)
    ensures o == NoKeys <==> err == Some(RedisNil)
    ensures o.ErrorEntry? <==> err.Some? && err.value.Err?
    ensures o.ErrorEntry? ==> o.key == ErrorKey(err.value.text) && o.key.dataType == "error" && o.key.ttl == -1
    ensures o.Keys? <==> err.None?
    ensures o.Keys? ==> o.keys == Merge(cmds)
  {
    match err
    case Some(RedisNil) => NoKeys
    case Some(Err(text)) => ErrorEntry(ErrorKey(text))
    case None => Keys(Merge(cmds))
  }

  ghost predicate Delivered(out: seq<Key>, o: Outcome, cancelAfter: Option<nat>)
  {
    match o
    case NoKeys => out == []
    case ErrorEntry(k) => out == (if cancelAfter == Some(0) then [] else [k])
    case Keys(keys) => Emitted(out, keys, cancelAfter)
  }

  lemma RoundCmdsWellFormed(names: seq<string>, reply: Request -> Reply)
    ensures WellFormedCmds(ExecCmds(Queue(names), reply))
  {
    MergeQueue(names, reply);
  }

  /**
   * A round that delivers keys delivers, for every name it queued, the Key built from
   * that name's own replies, and nothing else.
   */
  lemma RoundKeys(d: Client, pattern: string, pageSize: int, iters: map<string, Iter>, reply: Request -> Reply)
    requires ItersValid(iters)
    ensures var r := Gather(d, pattern, pageSize, iters, reply);
      WellFormedCmds(r.cmds) &&
      (r.err.None? ==> OutcomeOf(r) == Keys(KeysFor(r.names, reply)))
  {
    var r := Gather(d, pattern, pageSize, iters, reply);
    MergeQueue(r.names, reply);
  }

  /** Exact lookup of a key the store answers for: exactly that one key. */
  lemma ExactLookupFound(d: Client, pattern: string, pageSize: int, iters: map<string, Iter>, reply: Request -> Reply)
    requires ItersValid(iters) && !Contains(pattern, "*")
    requires IsValue(reply(Ttl(pattern))) && IsValue(reply(Type(pattern))) && IsValue(reply(MemoryUsage(pattern)))
    ensures var r := Gather(d, pattern, pageSize, iters, reply);
      WellFormedCmds(r.cmds) && OutcomeOf(r) == Keys(map[pattern := KeyFor(pattern, reply)])
  {
    var r := Gather(d, pattern, pageSize, iters, reply);
    assert Triple(pattern) == [Ttl(pattern), Type(pattern), MemoryUsage(pattern)];
    assert r.err.None?;
    MergeQueue([pattern], reply);
    assert KeysFor([pattern], reply) == map[pattern := KeyFor(pattern, reply)];
  }

  /** Exact lookup of a missing key (MEMORY USAGE answers nil): no entries, not an error entry. */
  lemma ExactLookupMissing(d: Client, pattern: string, pageSize: int, iters: map<string, Iter>, reply: Request -> Reply)
    requires ItersValid(iters) && !Contains(pattern, "*")
    requires IsValue(reply(Ttl(pattern))) && IsValue(reply(Type(pattern))) && reply(MemoryUsage(pattern)) == NilReply
    ensures var r := Gather(d, pattern, pageSize, iters, reply);
      WellFormedCmds(r.cmds) && OutcomeOf(r) == NoKeys
  {
    RoundCmdsWellFormed([pattern], reply);
    assert Triple(pattern)[1..] == [Type(pattern), MemoryUsage(pattern)];
    assert Triple(pattern)[1..][1..] == [MemoryUsage(pattern)];
    assert FirstErr([MemoryUsage(pattern)], reply) == Some(RedisNil);
    assert FirstErr([Type(pattern), MemoryUsage(pattern)], reply) == Some(RedisNil);
    assert FirstErr(Triple(pattern), reply) == Some(RedisNil);
  }

  /**
   * A key that vanishes between SCAN and MEMORY USAGE (its MEMORY USAGE answers nil)
   * makes the whole page deliver nothing, whatever the other names' replies were,
   * unless some command failed with another error.
   */
  lemma VanishedKeyDropsPage(names: seq<string>, reply: Request -> Reply, j: nat)
    requires j < |names| && reply(MemoryUsage(names[j])) == NilReply
    requires forall i :: 0 <= i < |Queue(names)| ==> !reply(Queue(names)[i]).ErrorReply?
    ensures WellFormedCmds(ExecCmds(Queue(names), reply))
    ensures Classify(ExecCmds(Queue(names), reply), FirstErr(Queue(names), reply)) == NoKeys
  {
    RoundCmdsWellFormed(names, reply);
    PageNil(names, reply, j);
  }

  lemma PageNil(names: seq<string>, reply: Request -> Reply, j: nat)
    requires j < |names| && reply(MemoryUsage(names[j])) == NilReply
    requires forall i :: 0 <= i < |Queue(names)| ==> !reply(Queue(names)[i]).ErrorReply?
    ensures FirstErr(Queue(names), reply) == Some(RedisNil)
  {
    QueueAt(names, j);
    FirstErrNil(Queue(names), reply, 3 * j + 2);
  }

  /** ScanAsync, before its goroutine starts: the session is marked as scanning. */
  method ScanAsync(s: Scan)
    modifies s
    ensures s.scanning
    ensures s.pattern == old(s.pattern) && s.pageSize == old(s.pageSize) && s.iters == old(s.iters)
  {
    s.scanning := true;
  }

  /** The cluster branch: PipelinedCmds on each primary in turn; a shard that fails
      contributes no commands, and the first error is kept. */
  method ForEachMaster(s: Scan, masters: seq<Node>, reply: Request -> Reply) returns (cmds: seq<Cmd>, err: Option<Error>)
    requires s.Valid()
    modifies s
    ensures s.Valid() && s.pattern == old(s.pattern) && s.pageSize == old(s.pageSize) && s.scanning == old(s.scanning)
    ensures var r := Fanout(old(s.iters), s.pageSize, masters, reply);
      s.iters == r.iters && cmds == r.cmds && err == r.err
  {
    cmds, err := [], None;
    for i := 0 to |masters|
      invariant s.Valid() && s.pattern == old(s.pattern) && s.pageSize == old(s.pageSize) && s.scanning == old(s.scanning)
      invariant var r := Fanout(old(s.iters), s.pageSize, masters[..i], reply);
        s.iters == r.iters && cmds == r.cmds && err == r.err
    {
      FanoutPrefixStep(old(s.iters), s.pageSize, masters, reply, i);
      var shardCmds, shardErr := s.PipelinedCmds(masters[i], reply);
      if shardErr.Some? {
        if err.None? {
          err := shardErr;
        }
      } else {
        cmds := cmds + shardCmds;
      }
    }
    assert masters[..|masters|] == masters;
  }

  /** One more primary: the fan-out over the first i + 1 primaries extends that over the first i. */
  lemma FanoutPrefixStep(iters: map<string, Iter>, pageSize: int, masters: seq<Node>, reply: Request -> Reply, i: nat)
    requires ItersValid(iters) && i < |masters|
    ensures var before := Fanout(iters, pageSize, masters[..i], reply);
      var shard := PipelinedRound(before.iters, pageSize, masters[i], reply);
      var r := Fanout(iters, pageSize, masters[..i + 1], reply);
      && r.iters == shard.iters
      && r.cmds == (if shard.err.None? then before.cmds + shard.cmds else before.cmds)
      && r.err == (if before.err.Some? then before.err else shard.err)
  {
    assert masters[..i + 1][..i] == masters[..i];
  }

  /**
   * The body of ScanAsync's goroutine: gather the round's commands, turn redis.Nil into
   * no entries and any other error into one error entry, otherwise merge and emit;
   * on every path the session stops scanning (the deferred cleanup).
   */
  method ScanRound(d: Client, s: Scan, reply: Request -> Reply, cancelAfter: Option<nat>) returns (out: seq<Key>)
    requires s.Valid()
    modifies s
    ensures s.Valid() && !s.scanning
    ensures s.pattern == old(s.pattern) && s.pageSize == old(s.pageSize)
    ensures var r := Gather(d, old(s.pattern), old(s.pageSize), old(s.iters), reply);
      && s.iters == r.iters
      && WellFormedCmds(r.cmds)
      && Delivered(out, OutcomeOf(r), cancelAfter)
  {
    var cmds: seq<Cmd>;
    var err: Option<Error>;
    if Contains(s.pattern, "*") {
      match d {
        case Standalone(node) =>
          cmds, err := s.PipelinedCmds(node, reply);
        case Cluster(masters) =>
          cmds, err := ForEachMaster(s, masters, reply);
      }
    } else {
      var piped := Exec(Triple(s.pattern), reply);
      cmds, err := piped.cmds, piped.err;
    }
    ghost var r := Gather(d, old(s.pattern), old(s.pageSize), old(s.iters), reply);
    assert cmds == r.cmds && err == r.err;
    RoundCmdsWellFormed(r.names, reply);

    out := Deliver(cmds, err, cancelAfter);
    s.scanning := false;
  }

  /** What the goroutine sends once the pipeline has run. */
  method Deliver(cmds: seq<Cmd>, err: Option<Error>, cancelAfter: Option<nat>) returns (out: seq<Key>)
    requires WellFormedCmds(cmds)
    ensures Delivered(out, Classify(cmds, err), cancelAfter)
  {
    if err == Some(RedisNil) {
      out := [];
    } else if err.Some? {
      out := if cancelAfter == Some(0) then [] else [ErrorKey(err.value.text)];
    } else {
      var keys := MergeCmds(cmds);
      out := Emit(keys, cancelAfter);
    }
  }

  // ----- rendering a key's value -----

  /** The rendered lines, in order, as one text (the strings.Builder). */
  function Concat(lines: seq<string>): string
    decreases |lines|
  {
    if lines == [] then "" else Concat(lines[..|lines| - 1]) + lines[|lines| - 1]
  }

  lemma {:induction false} ConcatAppend(a: seq<string>, b: seq<string>)
    ensures Concat(a + b) == Concat(a) + Concat(b)
    decreases |b|
  {
    if b == [] {
      assert a + b == a;
    } else {
      assert (a + b)[..|a + b| - 1] == a + b[..|b| - 1];
      assert (a + b)[|a + b| - 1] == b[|b| - 1];
      ConcatAppend(a, b[..|b| - 1]);
    }
  }

  function BulletLine(v: string): string
  {
    "- `" + v + "`\n"
  }

  /** A list or set value: one bullet line per element, in reply order. */
  function Bullets(vs: seq<string>): string
  {
    Concat(seq(|vs|, i requires 0 <= i < |vs| => BulletLine(vs[i])))
  }

  /** Rendering is line by line: a reply made of two parts renders as the two renderings
      in the same order, and a single element as its own bullet line. */
  lemma BulletsAppend(a: seq<string>, b: seq<string>)
    ensures Bullets(a + b) == Bullets(a) + Bullets(b)
  {
    var la := seq(|a|, i requires 0 <= i < |a| => BulletLine(a[i]));
    var lb := seq(|b|, i requires 0 <= i < |b| => BulletLine(b[i]));
    assert seq(|a + b|, i requires 0 <= i < |a + b| => BulletLine((a + b)[i])) == la + lb;
    ConcatAppend(la, lb);
  }

  lemma BulletsOne(v: string)
    ensures Bullets([v]) == "- `" + v + "`\n"
  {
    assert seq(1, i requires 0 <= i < 1 => BulletLine([v][i])) == [BulletLine(v)];
    assert [BulletLine(v)][..0] == [];
    assert Concat([BulletLine(v)]) == BulletLine(v);
  }

  const ZsetHeader: string := "| score | value |\n| --- | --- |\n"
  const HashHeader: string := "| field | value |\n| --- | --- |\n"

  function ZsetRow(z: ScoredMember): string
  {
    "| " + z.score + " | `" + z.member + "` |\n"
  }

  function ZsetRows(zs: seq<ScoredMember>): string
  {
    Concat(seq(|zs|, i requires 0 <= i < |zs| => ZsetRow(zs[i])))
  }

  /** A sorted set renders one row per member, in ZRANGE order. */
  lemma ZsetRowsAppend(a: seq<ScoredMember>, b: seq<ScoredMember>)
    ensures ZsetRows(a + b) == ZsetRows(a) + ZsetRows(b)
  {
    var la := seq(|a|, i requires 0 <= i < |a| => ZsetRow(a[i]));
    var lb := seq(|b|, i requires 0 <= i < |b| => ZsetRow(b[i]));
    assert seq(|a + b|, i requires 0 <= i < |a + b| => ZsetRow((a + b)[i])) == la + lb;
    ConcatAppend(la, lb);
  }

  lemma ZsetRowsOne(z: ScoredMember)
    ensures ZsetRows([z]) == ZsetRow(z)
  {
    assert seq(1, i requires 0 <= i < 1 => ZsetRow([z][i])) == [ZsetRow(z)];
    assert [ZsetRow(z)][..0] == [];
    assert Concat([ZsetRow(z)]) == ZsetRow(z);
  }

  /** The map HGETALL's reply becomes: one entry per field, a later pair for the same
      field overriding an earlier one. */
  function HashOf(pairs: seq<(string, string)>): (h: map<string, string>)
    ensures forall f :: f in h <==> exists i :: 0 <= i < |pairs| && pairs[i].0 == f
    decreases |pairs|
  {
    if pairs == [] then map[]
    else
      var init := pairs[..|pairs| - 1];
      assert forall i :: 0 <= i < |init| ==> init[i] == pairs[i];
      assert pairs == init + [pairs[|pairs| - 1]];
      HashOf(init)[pairs[|pairs| - 1].0 := pairs[|pairs| - 1].1]
  }

  /** The value of a field is the one its last pair carries. */
  lemma {:induction false} HashOfLastWins(pairs: seq<(string, string)>, i: nat)
    requires i < |pairs|
    requires forall j :: i < j < |pairs| ==> pairs[j].0 != pairs[i].0
    ensures pairs[i].0 in HashOf(pairs) && HashOf(pairs)[pairs[i].0] == pairs[i].1
    decreases |pairs|
  {
    if i < |pairs| - 1 {
      var init := pairs[..|pairs| - 1];
      assert forall j :: i < j < |init| ==> init[j] == pairs[j];
      HashOfLastWins(init, i);
    }
  }

  /** The fields in the order a range over the map yields them (any order will do). */
  function FieldsOf(pairs: seq<(string, string)>): (fs: seq<string>)
    ensures forall f :: f in fs <==> f in HashOf(pairs)
  {
    var fs := seq(|pairs|, i requires 0 <= i < |pairs| => pairs[i].0);
    assert forall i :: 0 <= i < |pairs| ==> fs[i] == pairs[i].0;
    fs
  }

  function HashRow(f: string, v: string): string
  {
    "| " + f + " | " + v + " |\n"
  }

  /** One row per field of fs, in the order of fs. */
  function HashRows(fs: seq<string>, h: map<string, string>): string
    requires forall f :: f in fs ==> f in h
    decreases |fs|
  {
    if fs == [] then ""
    else
      var last := fs[|fs| - 1];
      HashRows(fs[..|fs| - 1], h) + HashRow(last, h[last])
  }

  /** Fetch: the value of a key rendered as markdown, by the key's type. */
  function Fetch(key: Key, srv: Server): (r: Result<string, string>)
    // only GET can fail; the other reads render whatever was answered
    ensures r.Failure? <==> key.dataType == "string" && srv.get(key.name).Failure?
    ensures r.Failure? ==> r.error == srv.get(key.name).error
    ensures key.dataType == "string" && srv.get(key.name).Success? ==>
      r == Success("```" + srv.get(key.name).value + "```")
    ensures key.dataType !in {"string", "list", "set", "zset", "hash"} ==>
      r == Success("Unknown data type: " + key.dataType)
    // a sorted set and a hash render as a table: a header, then the rows
    ensures key.dataType == "zset" ==> r.Success? && ZsetHeader <= r.value
    ensures key.dataType == "hash" ==> r.Success? && HashHeader <= r.value
  {
    var t := key.dataType;
    if t == "string" then
      match srv.get(key.name)
      case Success(v) => Success("```" + v + "```")
      case Failure(e) => Failure(e)
    else if t == "list" then Success(Bullets(srv.lrange(key.name)))
    else if t == "set" then Success(Bullets(srv.smembers(key.name)))
    else if t == "zset" then Success(ZsetHeader + ZsetRows(srv.zrange(key.name)))
    else if t == "hash" then
      var h := HashOf(srv.hgetall(key.name));
      var fs := SortUnique(FieldsOf(srv.hgetall(key.name)));
      Success(HashHeader + HashRows(fs, h))
    else Success("Unknown data type: " + t)
  }

  /**
   * A hash renders as its header and then one row per field in ascending field order:
   * the rows of ANY strictly ascending list of exactly the hash's fields, so the order
   * in which the map yields them does not show.
   */
  lemma FetchHashSorted(key: Key, srv: Server, fs: seq<string>)
    requires key.dataType == "hash"
    requires StrictlySorted(fs)
    requires forall f :: f in fs <==> f in HashOf(srv.hgetall(key.name))
    ensures Fetch(key, srv) == Success(HashHeader + HashRows(fs, HashOf(srv.hgetall(key.name))))
  {
    var pairs := srv.hgetall(key.name);
    StrictlySortedUnique(SortUnique(FieldsOf(pairs)), fs);
  }

  /** A list renders one bullet per element in reply order. */
  lemma FetchListLines(key: Key, srv: Server, a: seq<string>, v: string)
    requires key.dataType == "list" && srv.lrange(key.name) == a + [v]
    ensures Fetch(key, srv) == Success(Bullets(a) + BulletLine(v))
  {
    BulletsAppend(a, [v]);
    BulletsOne(v);
  }

  /** A set renders one bullet per member in SMEMBERS order. */
  lemma FetchSetLines(key: Key, srv: Server, a: seq<string>, v: string)
    requires key.dataType == "set" && srv.smembers(key.name) == a + [v]
    ensures Fetch(key, srv) == Success(Bullets(a) + BulletLine(v))
  {
    BulletsAppend(a, [v]);
    BulletsOne(v);
  }

  /** A sorted set renders its header, then one row per member in ZRANGE order. */
  lemma FetchZsetRows(key: Key, srv: Server, a: seq<ScoredMember>, z: ScoredMember)
    requires key.dataType == "zset" && srv.zrange(key.name) == a + [z]
    ensures Fetch(key, srv) == Success(ZsetHeader + ZsetRows(a) + ZsetRow(z))
  {
    ZsetRowsAppend(a, [z]);
    ZsetRowsOne(z);
    assert ZsetHeader + (ZsetRows(a) + ZsetRow(z)) == ZsetHeader + ZsetRows(a) + ZsetRow(z);
  }

  /** A hash answered as beta=2 then alpha=1 renders alpha's row first. */
  lemma FetchHashExample(key: Key, srv: Server)
    requires key.dataType == "hash" && srv.hgetall(key.name) == [("beta", "2"), ("alpha", "1")]
    ensures Fetch(key, srv) == Success(HashHeader + HashRow("alpha", "1") + HashRow("beta", "2"))
  {
    var h := HashOf(srv.hgetall(key.name));
    ExampleHash(srv.hgetall(key.name));
    ExampleSorted();
    FetchHashSorted(key, srv, ["alpha", "beta"]);
    ExampleRows(h);
    var a, b := HashRow("alpha", "1"), HashRow("beta", "2");
    assert HashHeader + (a + b) == HashHeader + a + b;
  }

  lemma ExampleHash(pairs: seq<(string, string)>)
    requires pairs == [("beta", "2"), ("alpha", "1")]
    ensures HashOf(pairs) == map["beta" := "2", "alpha" := "1"]
    ensures forall f :: f in ["alpha", "beta"] <==> f in HashOf(pairs)
  {
    assert pairs[..1] == [("beta", "2")] && pairs[..1][..0] == [];
    assert HashOf(pairs[..1]) == map["beta" := "2"];
  }

  lemma ExampleSorted()
    ensures StrictlySorted(["alpha", "beta"])
  {
    assert Less("alpha", "beta");
  }

  lemma ExampleRows(h: map<string, string>)
    requires h == map["beta" := "2", "alpha" := "1"]
    ensures HashRows(["alpha", "beta"], h) == HashRow("alpha", "1") + HashRow("beta", "2")
  {
    assert h["alpha"] == "1" && h["beta"] == "2";
    assert ["alpha", "beta"][..1] == ["alpha"] && ["alpha"][..0] == [];
    assert HashRows(["alpha"], h) == HashRow("alpha", "1");
  }
}
