/** The task record and `argsToTask`, which builds the task of an add
    command from the command-line tokens: the name is the token after the
    action, then the tokens from index 3 on are read two at a time as a flag
    and its value. */
module TaskArgs {
  import opened GoStrconv
  import opened GoStrings

  /** A task as the service stores it. `topics == []` stands for Go's nil
      slice: the only other way topics are set is by Split, which never
      returns an empty sequence. */
  datatype Task = Task(
    id: int,
    name: string,
    due: string,
    createdTs: int,
    dueTs: int,
    priority: int,
    topics: seq<string>)

  /** Go's zero value of Task, as declared by `var t Task`. */
  const ZeroTask: Task := Task(0, "", "", 0, 0, 0, [])

  datatype Option<T> = None | Some(value: T)

  /** How argsToTask ends: with the task, or with Go's run-time panic for
      reading `args[index]` when `args` has only `length` elements. */
  datatype Outcome = Built(task: Task) | IndexOutOfRange(index: nat, length: nat)

  /** The flags that argsToTask recognises; every other token is skipped. */
  predicate IsTaskFlag(tok: string) {
    tok == "-p" || tok == "-d" || tok == "-t"
  }

  /** The effect of one recognised flag and its value on the task. */
  function SetField(t: Task, flag: string, value: string): Task {
    if flag == "-p" then t.(priority := Atoi(value))
    else if flag == "-d" then t.(due := value)
    else if flag == "-t" then t.(topics := Split(value, ','))
    else t
  }

  /** The pairs (args[i], args[i + 1]), (args[i + 2], args[i + 3]), ...
      applied to `t` in order; a recognised flag in the last position has no
      value to read, and reading it fails. */
  function FoldFlags(args: seq<string>, i: nat, t: Task): Outcome
    decreases |args| - i
  {
    if i >= |args| then Built(t)
    else if IsTaskFlag(args[i]) && i + 1 == |args| then IndexOutOfRange(i + 1, |args|)
    else FoldFlags(args, i + 2, if IsTaskFlag(args[i]) then SetField(t, args[i], args[i + 1]) else t)
  }

  /** The outcome of argsToTask: the zero task named args[2], with the flag
      pairs from index 3 applied. */
  function TaskFromArgs(args: seq<string>): Outcome
    requires |args| >= 3
  {
    FoldFlags(args, 3, ZeroTask.(name := args[2]))
  }

  /** argsToTask. Its caller has already checked that there are at least three
      tokens. The inner test `|args| > i` is the source's own, and always holds
      inside the loop, so it does not protect the reads of `args[i + 1]`. */
  method ArgsToTask(args: seq<string>) returns (r: Outcome)
    requires |args| >= 3
    ensures r == TaskFromArgs(args)
  {
    var t := ZeroTask;
    t := t.(name := args[2]);
    if |args| > 3 {
      var i := 3;
      while i < |args|
        invariant 3 <= i
        invariant FoldFlags(args, i, t) == TaskFromArgs(args)
        decreases |args| - i
      {
        if |args| > i {
          if args[i] == "-p" {
            if i + 1 == |args| {
              return IndexOutOfRange(i + 1, |args|);
            }
            t := t.(priority := Atoi(args[i + 1]));
          } else if args[i] == "-d" {
            if i + 1 == |args| {
              return IndexOutOfRange(i + 1, |args|);
            }
            t := t.(due := args[i + 1]);
          } else if args[i] == "-t" {
            if i + 1 == |args| {
              return IndexOutOfRange(i + 1, |args|);
            }
            t := t.(topics := Split(args[i + 1], ','));
          }
        }
        i := i + 2;
      }
    }
    r := Built(t);
  }

  /** argsToTask as its inner test evidently intends: the test guards the
      reads of `args[i + 1]`, so it reads `|args| > i + 1`, and a recognised
      flag in the last position is ignored instead of read past the end. */
  method ArgsToTaskGuarded(args: seq<string>) returns (t: Task)
    requires |args| >= 3
    ensures !MissingFlagValue(args) ==> TaskFromArgs(args) == Built(t)
    ensures MissingFlagValue(args) ==> TaskFromArgs(args[..|args| - 1]) == Built(t)
  {
    ghost var trimmed := if MissingFlagValue(args) then args[..|args| - 1] else args;
    TaskFromArgsFailsIff(trimmed);
    t := ZeroTask;
    t := t.(name := args[2]);
    if |args| > 3 {
      var i := 3;
      while i < |args|
        invariant 3 <= i && i % 2 == 1
        invariant FoldFlags(trimmed, i, t) == TaskFromArgs(trimmed)
        decreases |args| - i
      {
        if |args| > i + 1 {
          if args[i] == "-p" {
            t := t.(priority := Atoi(args[i + 1]));
          } else if args[i] == "-d" {
            t := t.(due := args[i + 1]);
          } else if args[i] == "-t" {
            t := t.(topics := Split(args[i + 1], ','));
          }
        }
        i := i + 2;
      }
    }
  }

  /** A recognised flag with no token after it, in a position argsToTask
      reads as a flag. */
  predicate MissingFlagValue(args: seq<string>) {
    |args| >= 4 && |args| % 2 == 0 && IsTaskFlag(args[|args| - 1])
  }

  /** Index j holds a flag whose value is at j + 1, for the pairs read from `from` on. */
  predicate IsSlot(args: seq<string>, from: nat, j: int) {
    from <= j && (j - from) % 2 == 0 && j + 1 < |args|
  }

  /** The value after the last occurrence of `flag` among the pairs read from
      `from` on, if it occurs: a later pair takes precedence over an earlier one. */
  function LastValue(args: seq<string>, flag: string, from: nat): Option<string>
    decreases |args| - from
  {
    if from + 1 >= |args| then None
    else match LastValue(args, flag, from + 2)
      case Some(v) => Some(v)
      case None => if args[from] == flag then Some(args[from + 1]) else None
  }

  /** The pair at j carries `flag`, and no later pair does. */
  ghost predicate IsLastOccurrence(args: seq<string>, flag: string, from: nat, j: int) {
    IsSlot(args, from, j) && args[j] == flag
    && forall k :: IsSlot(args, from, k) && j < k ==> args[k] != flag
  }

  /** LastValue finds the last pair whose flag is `flag`, and nothing when
      there is none. */
  lemma {:induction false} LastValueIsLastOccurrence(args: seq<string>, flag: string, from: nat)
    decreases |args| - from
    ensures LastValue(args, flag, from).None? <==>
      forall j :: IsSlot(args, from, j) ==> args[j] != flag
    ensures LastValue(args, flag, from).Some? ==>
      exists j :: IsLastOccurrence(args, flag, from, j) && args[j + 1] == LastValue(args, flag, from).value
  {
    if from + 1 < |args| {
      LastValueIsLastOccurrence(args, flag, from + 2);
      forall j | IsSlot(args, from, j) && j != from
        ensures IsSlot(args, from + 2, j)
      {
      }
      if LastValue(args, flag, from + 2).Some? {
        var j :| IsLastOccurrence(args, flag, from + 2, j) && args[j + 1] == LastValue(args, flag, from + 2).value;
        assert IsLastOccurrence(args, flag, from, j);
      } else if args[from] == flag {
        assert IsLastOccurrence(args, flag, from, from);
      }
    } else {
      forall j | IsSlot(args, from, j)
        ensures false
      {
      }
    }
  }

  /** The fold never touches id, name and the two timestamps. */
  lemma {:induction false} FoldKeepsIdentity(args: seq<string>, i: nat, t: Task)
    decreases |args| - i
    ensures FoldFlags(args, i, t).Built? ==>
      var u := FoldFlags(args, i, t).task;
      u.id == t.id && u.name == t.name && u.createdTs == t.createdTs && u.dueTs == t.dueTs
  {
    if i < |args| && !(IsTaskFlag(args[i]) && i + 1 == |args|) {
      FoldKeepsIdentity(args, i + 2, if IsTaskFlag(args[i]) then SetField(t, args[i], args[i + 1]) else t);
    }
  }

  /** The task's name is always args[2], and its id and timestamps stay 0. */
  lemma TaskFromArgsIdentity(args: seq<string>)
    requires |args| >= 3
    ensures TaskFromArgs(args).Built? ==>
      var t := TaskFromArgs(args).task;
      t.name == args[2] && t.id == 0 && t.createdTs == 0 && t.dueTs == 0
  {
    FoldKeepsIdentity(args, 3, ZeroTask.(name := args[2]));
  }

  lemma {:induction false} FoldFailsIff(args: seq<string>, i: nat, t: Task)
    decreases |args| - i
    ensures FoldFlags(args, i, t).IndexOutOfRange? <==>
      i < |args| && (|args| - 1 - i) % 2 == 0 && IsTaskFlag(args[|args| - 1])
    ensures FoldFlags(args, i, t).IndexOutOfRange? ==>
      FoldFlags(args, i, t).index == FoldFlags(args, i, t).length == |args|
  {
    if i < |args| && !(IsTaskFlag(args[i]) && i + 1 == |args|) {
      FoldFailsIff(args, i + 2, if IsTaskFlag(args[i]) then SetField(t, args[i], args[i + 1]) else t);
    }
  }

  /** argsToTask fails exactly when a recognised flag is the last token and
      sits at an odd index, and then it reads one past the end. */
  lemma TaskFromArgsFailsIff(args: seq<string>)
    requires |args| >= 3
    ensures TaskFromArgs(args).IndexOutOfRange? <==> MissingFlagValue(args)
    ensures TaskFromArgs(args).IndexOutOfRange? ==>
      TaskFromArgs(args) == IndexOutOfRange(|args|, |args|)
  {
    FoldFailsIff(args, 3, ZeroTask.(name := args[2]));
  }

  /** Each of priority, due and topics is set by the last pair carrying its
      flag, and keeps its starting value when no pair carries it. */
  lemma {:induction false} FoldFieldsAreLastValues(args: seq<string>, i: nat, t: Task)
    decreases |args| - i
    ensures FoldFlags(args, i, t).Built? ==>
      var u := FoldFlags(args, i, t).task;
      && u.priority == (match LastValue(args, "-p", i) case Some(v) => Atoi(v) case None => t.priority)
      && u.due == (match LastValue(args, "-d", i) case Some(v) => v case None => t.due)
      && u.topics == (match LastValue(args, "-t", i) case Some(v) => Split(v, ',') case None => t.topics)
  {
    if i < |args| && !(IsTaskFlag(args[i]) && i + 1 == |args|) {
      FoldFieldsAreLastValues(args, i + 2, if IsTaskFlag(args[i]) then SetField(t, args[i], args[i + 1]) else t);
    }
  }

  /** Last one wins, and absent flags leave the zero values: priority 0, due
      "" and no topics. */
  lemma TaskFromArgsLastWins(args: seq<string>)
    requires |args| >= 3
    ensures TaskFromArgs(args).Built? ==>
      var t := TaskFromArgs(args).task;
      && t.priority == (match LastValue(args, "-p", 3) case Some(v) => Atoi(v) case None => 0)
      && t.due == (match LastValue(args, "-d", 3) case Some(v) => v case None => "")
      && t.topics == (match LastValue(args, "-t", 3) case Some(v) => Split(v, ',') case None => [])
  {
    FoldFieldsAreLastValues(args, 3, ZeroTask.(name := args[2]));
  }

  /** Tokens at odd indices from 3 on are the only ones read as flags: when
      none of them is recognised, the task is the zero task with its name,
      whatever the other tokens are. */
  lemma NoRecognisedFlags(args: seq<string>)
    requires |args| >= 3
    requires forall j :: 3 <= j < |args| && j % 2 == 1 ==> !IsTaskFlag(args[j])
    ensures TaskFromArgs(args) == Built(ZeroTask.(name := args[2]))
  {
    TaskFromArgsFailsIff(args);
    TaskFromArgsIdentity(args);
    TaskFromArgsLastWins(args);
    LastValueIsLastOccurrence(args, "-p", 3);
    LastValueIsLastOccurrence(args, "-d", 3);
    LastValueIsLastOccurrence(args, "-t", 3);
  }

  lemma {:induction false} FoldIgnoresValueOfSkippedToken(args: seq<string>, i: nat, t: Task, j: nat, tok: string)
    requires i < j < |args| && (j - i) % 2 == 1 && !IsTaskFlag(args[j - 1])
    decreases |args| - i
    ensures FoldFlags(args[j := tok], i, t) == FoldFlags(args, i, t)
  {
    var args' := args[j := tok];
    assert args'[i] == args[i];
    if !(IsTaskFlag(args[i]) && i + 1 == |args|) {
      var t' := if IsTaskFlag(args[i]) then SetField(t, args[i], args[i + 1]) else t;
      assert IsTaskFlag(args[i]) ==> i + 1 != j && args'[i + 1] == args[i + 1];
      if i + 2 < j {
        FoldIgnoresValueOfSkippedToken(args, i + 2, t', j, tok);
      } else {
        FoldAgreesPastIndex(args, args', i + 2, t', j);
      }
    }
  }

  /** Past index j the two token lists agree, so the folds agree. */
  lemma {:induction false} FoldAgreesPastIndex(args: seq<string>, args': seq<string>, i: nat, t: Task, j: nat)
    requires |args'| == |args| && j < i
    requires forall k :: j < k < |args| ==> args'[k] == args[k]
    decreases |args| - i
    ensures FoldFlags(args', i, t) == FoldFlags(args, i, t)
  {
    if i < |args| && !(IsTaskFlag(args[i]) && i + 1 == |args|) {
      FoldAgreesPastIndex(args, args', i + 2,
        if IsTaskFlag(args[i]) then SetField(t, args[i], args[i + 1]) else t, j);
    }
  }

  /** A token at an even index from 4 on is never read as a flag: when it
      follows an unrecognised token, replacing it changes nothing. */
  lemma EvenTokenIsNeverAFlag(args: seq<string>, j: nat, tok: string)
    requires 4 <= j < |args| && j % 2 == 0 && !IsTaskFlag(args[j - 1])
    ensures TaskFromArgs(args[j := tok]) == TaskFromArgs(args)
  {
    FoldIgnoresValueOfSkippedToken(args, 3, ZeroTask.(name := args[2]), j, tok);
  }

  /** `-t v` sets the topics to the comma-separated pieces of v, in order:
      one more piece than v has commas, and joining them with commas gives v. */
  lemma TopicsAreCommaSplit(args: seq<string>, v: string)
    requires |args| >= 3 && TaskFromArgs(args).Built?
    requires LastValue(args, "-t", 3) == Some(v)
    ensures var topics := TaskFromArgs(args).task.topics;
      && topics == Split(v, ',')
      && |topics| == Count(v, ',') + 1
      && Join(topics, ',') == v
  {
    TaskFromArgsLastWins(args);
    JoinSplit(v, ',');
  }

  /** `-p v` sets the priority to the number v denotes when v is decimal,
      clamped to 64 bits; to 0 when v is not decimal and ParseUint reaches the
      offending character; and to the int64 bound of v's sign when the
      leading digits overflow first. */
  lemma PriorityIsParsed(args: seq<string>, v: string)
    requires |args| >= 3 && TaskFromArgs(args).Built?
    requires LastValue(args, "-p", 3) == Some(v)
    ensures IsDecimal(v) ==> TaskFromArgs(args).task.priority == Clamp64(SignedValue(v))
    ensures !IsDecimal(v) && PrefixValue(v) <= MaxUint64 ==> TaskFromArgs(args).task.priority == 0
    ensures PrefixValue(v) > MaxUint64 ==>
      TaskFromArgs(args).task.priority == if v[0] == '-' then MinInt64 else MaxInt64
  {
    TaskFromArgsLastWins(args);
    if IsDecimal(v) {
      AtoiDecimal(v);
    }
    if PrefixValue(v) > MaxUint64 {
      AtoiOverflowFirst(v);
    } else if !IsDecimal(v) {
      AtoiNonDecimal(v);
    }
  }
}
