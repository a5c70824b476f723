/**
 * The parts of the go-redis client that the scan engine relies on, as values.
 * The store itself is outside the model: what a SCAN cursor chain yields and what
 * each command answers are given as data (an Enumeration and a Server).
 */
module Redis {
  import opened Wrappers

  /** Everything one SCAN cursor chain for the session's pattern yields on one node,
      from cursor 0 until the server reports the end of the keyspace (failure == None)
      or a SCAN call fails (failure == Some(message)). */
  datatype Enumeration = Enumeration(names: seq<string>, failure: Option<string>)

  /** A node the engine talks to: its address (`Options().Addr`) and its keyspace. */
  datatype Node = Node(addr: string, keyspace: Enumeration)

  /** A go-redis ScanIterator: how far into the enumeration it is, and whether Next
      has already reported the end. */
  datatype Iter = Iter(names: seq<string>, pos: nat, failure: Option<string>, ended: bool)
  {
    ghost predicate Valid()
    {
      pos <= |names| && (ended ==> pos == |names|)
    }

    function Remaining(): nat
      requires Valid()
    {
      |names| - pos
    }

    /** Next: advances to the following name, or reports the end (and stays there). */
    function Next(): (bool, Iter)
      requires Valid()
    {
      if pos < |names| then (true, this.(pos := pos + 1))
      else (false, this.(ended := true))
    }

    /** Val: the name Next last moved to. */
    function Val(): string
      requires Valid() && 0 < pos
    {
      names[pos - 1]
    }

    /** The iterator's `Err()`: the failure that ended the chain, once Next has reported the end. */
    function Failure(): Option<string>
    {
      if ended then failure else None
    }
  }

  /** `rc.Scan(ctx, 0, pattern, count).Iterator()`: a fresh iterator at cursor 0. */
  function StartIter(e: Enumeration): (it: Iter)
    ensures it.Valid() && it.pos == 0 && !it.ended && it.names == e.names
  {
    Iter(e.names, 0, e.failure, false)
  }

  /** The three per-key metadata commands the engine queues. */
  datatype Request = Ttl(key: string) | Type(key: string) | MemoryUsage(key: string)

  /** A command argument as go-redis stores it (`[]interface{}`). */
  datatype Arg = Str(s: string) | Num(n: int)

  /** The argument list go-redis records for each command. */
  function Args(r: Request): seq<Arg>
  {
    match r
    case Ttl(k) => [Str("ttl"), Str(k)]
    case Type(k) => [Str("type"), Str(k)]
    case MemoryUsage(k) => [Str("memory"), Str("usage"), Str(k)]
  }

  /** What the store answers to one command. */
  datatype Reply = IntReply(n: int) | StatusReply(s: string) | NilReply | ErrorReply(msg: string)

  /** An executed command, by its go-redis type; values are the zero value on error. */
  datatype Cmd =
    | DurationCmd(args: seq<Arg>, duration: int)
    | StatusCmd(args: seq<Arg>, status: string)
    | IntCmd(args: seq<Arg>, n: int)
    | OtherCmd(args: seq<Arg>)

  function IntValue(reply: Reply): int
  {
    if reply.IntReply? then reply.n else 0
  }

  function StatusValue(reply: Reply): string
  {
    if reply.StatusReply? then reply.s else ""
  }

  /** The typed command go-redis builds for a request, filled in with its reply. */
  function Bind(r: Request, reply: Reply): (c: Cmd)
    ensures c.args == Args(r)
  {
    match r
    case Ttl(_) => DurationCmd(Args(r), IntValue(reply))
    case Type(_) => StatusCmd(Args(r), StatusValue(reply))
    case MemoryUsage(_) => IntCmd(Args(r), IntValue(reply))
  }

  /** A pipeline error: `redis.Nil` (an absent value) or any other error text. */
  datatype Error = RedisNil | Err(text: string)

  predicate IsValue(reply: Reply)
  {
    reply.IntReply? || reply.StatusReply?
  }

  /** The error a failed reply stands for: redis.Nil for a nil reply, its text otherwise. */
  function ErrOf(reply: Reply): (e: Error)
    requires !IsValue(reply)
    ensures e == RedisNil <==> reply == NilReply
    ensures e.Err? ==> reply == ErrorReply(e.text)
  {
    if reply.NilReply? then RedisNil else Err(reply.msg)
  }

  /** The error a pipeline reports: that of its first failed command. */
  function FirstErr(reqs: seq<Request>, reply: Request -> Reply): (e: Option<Error>)
    ensures e.None? <==> forall i :: 0 <= i < |reqs| ==> IsValue(reply(reqs[i]))
    ensures e == Some(RedisNil) ==> exists i :: 0 <= i < |reqs| && reply(reqs[i]) == NilReply
  {
    if reqs == [] then None
    else match reply(reqs[0])
      case NilReply => Some(RedisNil)
      case ErrorReply(msg) => Some(Err(msg))
      case _ => FirstErr(reqs[1..], reply)
  }

  /** The pipeline reports the error of its earliest command whose reply is not a value:
      a nil reply after an error reply still reports the error, and the other way round. */
  lemma {:induction false} FirstErrIsFirst(reqs: seq<Request>, reply: Request -> Reply, i: nat)
    requires i < |reqs| && !IsValue(reply(reqs[i]))
    requires forall j :: 0 <= j < i ==> IsValue(reply(reqs[j]))
    ensures FirstErr(reqs, reply) == Some(ErrOf(reply(reqs[i])))
    decreases i
  {
    if i > 0 {
      assert IsValue(reply(reqs[0]));
      assert forall j :: 0 <= j < |reqs| - 1 ==> reqs[1..][j] == reqs[j + 1];
      FirstErrIsFirst(reqs[1..], reply, i - 1);
    }
  }

  /** With no error reply in the pipeline, a single nil reply makes the whole pipeline
      report redis.Nil. */
  lemma {:induction false} FirstErrNil(reqs: seq<Request>, reply: Request -> Reply, j: nat)
    requires j < |reqs| && reply(reqs[j]) == NilReply
    requires forall i :: 0 <= i < |reqs| ==> !reply(reqs[i]).ErrorReply?
    ensures FirstErr(reqs, reply) == Some(RedisNil)
    decreases |reqs|
  {
    if reply(reqs[0]) != NilReply {
      assert j > 0;
      assert forall i :: 0 <= i < |reqs| - 1 ==> reqs[1..][i] == reqs[i + 1];
      FirstErrNil(reqs[1..], reply, j - 1);
    }
  }

  /** The commands of a pipeline once executed, in the order they were queued. */
  function ExecCmds(reqs: seq<Request>, reply: Request -> Reply): (cmds: seq<Cmd>)
    ensures |cmds| == |reqs|
    ensures forall i :: 0 <= i < |reqs| ==> cmds[i] == Bind(reqs[i], reply(reqs[i]))
  {
    seq(|reqs|, i requires 0 <= i < |reqs| => Bind(reqs[i], reply(reqs[i])))
  }

  lemma ExecCmdsAppend(a: seq<Request>, b: seq<Request>, reply: Request -> Reply)
    ensures ExecCmds(a + b, reply) == ExecCmds(a, reply) + ExecCmds(b, reply)
  {
  }

  /** `Pipeliner.Exec`: the executed commands and the first error among them. */
  datatype Piped = Piped(cmds: seq<Cmd>, err: Option<Error>)

  function Exec(reqs: seq<Request>, reply: Request -> Reply): Piped
  {
    Piped(ExecCmds(reqs, reply), FirstErr(reqs, reply))
  }

  /** One ZRANGE WITHSCORES entry; the score is kept as the text `%f` makes of it. */
  datatype ScoredMember = ScoredMember(score: string, member: string)

  /** What the store answers to the commands the engine sends. */
  datatype Server = Server(
    reply: Request -> Reply,                // TTL, TYPE, MEMORY USAGE
    get: string -> Result<string, string>,  // GET
    lrange: string -> seq<string>,          // LRANGE key 0 -1
    smembers: string -> seq<string>,        // SMEMBERS
    zrange: string -> seq<ScoredMember>,    // ZRANGE key 0 -1 WITHSCORES
    hgetall: string -> seq<(string, string)>) // HGETALL, field/value pairs in reply order
}
