/** Worked examples: concrete command lines and the outcome the model is
    proved to give for each. */
module Scenarios {
  import opened GoStrconv
  import opened GoStrings
  import opened TaskArgs
  import opened Cli

  /** `t -a "Buy milk" -p 2 -t groceries,errands` builds the task with that
      name, priority 2 and the two topics in order; every other field is zero. */
  lemma BuyMilkScenario()
    ensures TaskFromArgs(["t", "-a", "Buy milk", "-p", "2", "-t", "groceries,errands"])
      == Built(Task(0, "Buy milk", "", 0, 0, 2, ["groceries", "errands"]))
  {
    var args := ["t", "-a", "Buy milk", "-p", "2", "-t", "groceries,errands"];
    assert LastValue(args, "-p", 3) == Some("2");
    assert LastValue(args, "-d", 3) == None;
    assert LastValue(args, "-t", 3) == Some("groceries,errands");
    TaskFromArgsFailsIff(args);
    TaskFromArgsIdentity(args);
    TaskFromArgsLastWins(args);
    AtoiItoa(2);
    SplitOfTopics();
  }

  lemma SplitOfTopics()
    ensures Split("groceries,errands", ',') == ["groceries", "errands"]
  {
    SplitJoin(["groceries", "errands"], ',');
    JoinOfTopics();
  }

  lemma JoinOfTopics()
    ensures Join(["groceries", "errands"], ',') == "groceries,errands"
  {
  }

  /** A recognised flag as the last of an even number of tokens: `t -a x -p`
      reads args[4] of four tokens and panics. */
  lemma TrailingFlagPanics()
    ensures TaskFromArgs(["t", "-a", "x", "-p"]) == IndexOutOfRange(4, 4)
  {
  }

  /** `t -r 42` reads `.../t/42`, `t -d 7` deletes `.../t/7`, and `t` alone
      is refused before any request. */
  lemma CommandScenarios()
    ensures Dispatch(["t", "-r", "42"]) == Read(42)
    ensures TaskPath(42) == "http://localhost:1643/t/42"
    ensures Dispatch(["t", "-d", "7"]) == Delete(7)
    ensures TaskPath(7) == "http://localhost:1643/t/7"
    ensures Dispatch(["t"]) == TooFewArguments
  {
    AtoiItoa(42);
    AtoiItoa(7);
  }
}
