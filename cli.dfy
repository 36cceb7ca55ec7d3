/** The command-line entry point: the argument-count check and the switch on
    the action in `main`, and the resource path that getTask and deleteTask
    request. The HTTP exchange, the JSON encoding and the console output are
    not modelled. */
module Cli {
  import opened GoStrconv
  import opened TaskArgs

  /** The service's task collection. */
  const TaskUrl: string := "http://localhost:1643/t"

  /** What one run of the program does. */
  datatype Command =
    | TooFewArguments        // invalid-syntax message, then log.Fatal: exit status 1
    | UnknownAction          // invalid-syntax message, then a normal exit
    | Add(outcome: Outcome)  // POST the task built from the arguments
    | Delete(id: int)        // DELETE the task's path
    | Read(id: int)          // GET the task's path and print the task

  predicate IsInvalidSyntax(c: Command) {
    c.TooFewArguments? || c.UnknownAction?
  }

  /** The action chosen for the tokens `args`, args[0] being the program name. */
  function Dispatch(args: seq<string>): (c: Command)
    ensures IsInvalidSyntax(c) <==>
      |args| < 3 || (args[1] != "-a" && args[1] != "-d" && args[1] != "-r")
    ensures c.TooFewArguments? <==> |args| < 3
    ensures c.Add? <==> |args| >= 3 && args[1] == "-a"
    ensures c.Delete? <==> |args| >= 3 && args[1] == "-d"
    ensures c.Read? <==> |args| >= 3 && args[1] == "-r"
    ensures c.Add? ==> |args| >= 3 && c.outcome == TaskFromArgs(args)
    ensures (c.Delete? || c.Read?) ==> |args| >= 3 && c.id == Atoi(args[2])
    ensures (c.Delete? || c.Read?) ==> MinInt64 <= c.id <= MaxInt64
    ensures c.Add? && c.outcome.Built? ==> c.outcome.task.name == args[2]
  {
    if |args| < 3 then TooFewArguments
    else if args[1] == "-a" then
      TaskFromArgsIdentity(args);
      Add(TaskFromArgs(args))
    else if args[1] == "-d" then Delete(Atoi(args[2]))
    else if args[1] == "-r" then Read(Atoi(args[2]))
    else UnknownAction
  }

  /** The resource that getTask and deleteTask address: the collection, a
      slash, and the id in decimal. */
  function TaskPath(id: int): (p: string)
    ensures var n := |TaskUrl| + 1;
      && |p| > n
      && p[..n] == TaskUrl + "/"
      && IsDecimal(p[n..]) && SignedValue(p[n..]) == id
      && (p[n] == '-' <==> id < 0) && p[n] != '+'
      && (|Unsigned(p[n..])| > 1 ==> Unsigned(p[n..])[0] != '0')
  {
    TaskUrl + "/" + Itoa(id)
  }

  /** The path names the collection and then exactly the id: the segment
      after the slash has no further slash and parses back to the id. */
  lemma TaskPathNamesId(id: int)
    requires MinInt64 <= id <= MaxInt64
    ensures var p := TaskPath(id); var n := |TaskUrl| + 1;
      && |p| > n
      && p[..n] == TaskUrl + "/"
      && '/' !in p[n..]
      && Atoi(p[n..]) == id
  {
    var p, n := TaskPath(id), |TaskUrl| + 1;
    assert p[..n] == TaskUrl + "/";
    assert p[n..] == Itoa(id);
    AtoiItoa(id);
    assert forall i :: 0 <= i < |Unsigned(Itoa(id))| ==> IsDigit(Unsigned(Itoa(id))[i]);
    assert Itoa(id) == Unsigned(Itoa(id)) || Itoa(id) == "-" + Unsigned(Itoa(id));
  }

  /** The id of a read or delete comes from args[2]: a decimal token gives its
      value (clamped to 64 bits); a token whose leading digits overflow gives
      the int64 bound of its sign; any other token gives task 0. */
  lemma PathFromIdArgument(args: seq<string>)
    requires |args| >= 3 && (args[1] == "-d" || args[1] == "-r")
    ensures Dispatch(args).Delete? || Dispatch(args).Read?
    ensures IsDecimal(args[2]) ==>
      TaskPath(Dispatch(args).id) == TaskUrl + "/" + Itoa(Clamp64(SignedValue(args[2])))
    ensures !IsDecimal(args[2]) && PrefixValue(args[2]) <= MaxUint64 ==>
      TaskPath(Dispatch(args).id) == TaskUrl + "/0"
    ensures PrefixValue(args[2]) > MaxUint64 ==>
      TaskPath(Dispatch(args).id) == TaskUrl + "/" + Itoa(if args[2][0] == '-' then MinInt64 else MaxInt64)
  {
    if IsDecimal(args[2]) {
      AtoiDecimal(args[2]);
    }
    if PrefixValue(args[2]) > MaxUint64 {
      AtoiOverflowFirst(args[2]);
    } else if !IsDecimal(args[2]) {
      AtoiNonDecimal(args[2]);
    }
  }
}
