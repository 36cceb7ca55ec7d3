# tea command-line client: argument interpretation

`t` is a small command-line client for a remote task service. One run reads
the process arguments and does one of these:

- adds a task: `t -a <name> [-p <priority>] [-d <due>] [-t <topic,topic,...>]`
- deletes a task: `t -d <id>`
- reads and prints a task: `t -r <id>`

Anything else is refused with an "Invalid command syntax" message.

This project models the part of `t.go` that decides what the run does:

- the argument-count check and the switch on the action in `main`;
- `argsToTask`, which builds the `Task` record for an add from the tokens;
- the resource path `http://localhost:1643/t/<id>` that reads and deletes address.

It also models the Go library routines these depend on, from two packages.
`strconv.Atoi` parses the priority and the id, and `strconv.Itoa` prints the id.
`strings.Split` splits the topics.
Go's `int` is taken to be 64 bits wide.

Files:

- `strconv.dfy` (module `GoStrconv`): `Atoi` as Go's `ParseInt(s, 10, 0)`, which means:
  - a syntax error gives 0;
  - an out-of-range value is clamped to the int64 range;
  - an overflow found while scanning wins over a later syntax error.

  Also `Itoa`, and a digit-string reference value (`DecimalValue`) that both are proved against.
- `strings.dfy` (module `GoStrings`): `Split` and `Join` for a one-character separator, proved inverse to each other.
- `task_args.dfy` (module `TaskArgs`): the `Task` datatype and `argsToTask`.
  - `ArgsToTask` is a method with the source's loop. It is proved equal to `FoldFlags`, a function that folds the flag/value pairs.
  - Lemmas state what the fold does:
    - which fields it sets;
    - that the last occurrence of a flag wins;
    - the zero defaults;
    - which tokens count as flags;
    - exactly when it panics.
- `cli.dfy` (module `Cli`): the action selection (`Dispatch`) and the task path (`TaskPath`).
- `scenarios.dfy` (module `Scenarios`): worked examples: concrete command lines and the outcome the model is proved to give for each.

A read of `args[i + 1]` past the end of the argument list is a Go run-time panic.
The model makes it an explicit outcome, `IndexOutOfRange(index, length)`.

## Model

| member | source | states |
|---|---|---|
| `TaskArgs.ArgsToTask` | t.go:56-77 | The loop that starts from the zero task named `args[2]` and applies the pairs at indices 3, 5, 7, ... computes exactly `TaskFromArgs(args)`. That includes the panic when a recognised flag has no value after it. |
| `TaskArgs.TaskFromArgsIdentity` | t.go:57-59 | When the task is built, its name is `args[2]` whatever the other tokens are. Its id, createdTs and dueTs are 0, since no flag sets them. |
| `TaskArgs.TaskFromArgsLastWins` | t.go:57-71 | Priority is `Atoi` of the value after the last `-p`. Due is the value after the last `-d`. Topics are the comma-split of the value after the last `-t`. A field whose flag never occurs keeps its zero value: 0, `""`, no topics. |
| `TaskArgs.LastValueIsLastOccurrence` | t.go:61-71 | The value `LastValue` picks is the token right after the LAST pair whose flag matches. Pairs are read at `from`, `from + 2`, ... It picks nothing exactly when no pair carries that flag. |
| `TaskArgs.TaskFromArgsFailsIff` | t.go:61-70 | argsToTask fails if and only if the token count is even and at least 4, and the last token is `-p`, `-d` or `-t`. It then reads index `len(args)` of a slice of that length. |
| `TaskArgs.NoRecognisedFlags` | t.go:61-71 | If no token at an odd index from 3 on is `-p`, `-d` or `-t`, the result is the zero task with name `args[2]`. This holds whatever the other tokens are, so unknown flags are skipped. |
| `TaskArgs.EvenTokenIsNeverAFlag` | t.go:61 | A token at an even index of 4 or more that follows an unrecognised token can be replaced by anything, even `-p`, without changing the result. |
| `TaskArgs.TopicsAreCommaSplit` | t.go:69-70 | `-t v` gives the topics `Split(v, ',')`. There is one more topic than `v` has commas, and joining the topics with `,` gives back `v`. |
| `TaskArgs.PriorityIsParsed` | t.go:65-66 | `-p v` with a decimal `v` gives its value, clamped to 64 bits. A non-numeric `v` whose leading digits fit in 64 unsigned bits gives 0. A `v` whose leading digits exceed that range gives the int64 bound of its sign, whatever follows them. |
| `TaskArgs.ArgsToTaskGuarded` | t.go:60-73 | Corrected loop, guard `len(args) > i+1`. It never fails. Where the code as written succeeds, it returns the same task. When the code as written panics on a trailing flag, it returns the task built without that flag. |
| `GoStrconv.AtoiDecimal` | t.go:66 | `Atoi` of an optional sign followed by one or more digits is the number they denote, clamped to [-2^63, 2^63-1]. |
| `GoStrconv.AtoiNonDecimal` | t.go:66 | `Atoi` of any other string is 0 (the error is discarded) when the digits before the offending character denote at most 2^64-1, so the scan reaches that character. |
| `GoStrconv.AtoiOverflowFirst` | t.go:66 | When the digits after the optional sign already exceed the unsigned 64-bit range, the characters after them are never examined. The result is -2^63 after a `-` and 2^63-1 otherwise. Together with `AtoiNonDecimal` this covers every non-decimal string. |
| `GoStrconv.Atoi` | t.go:66 | `strconv.Atoi` with its error discarded, here and for the id at t.go:45 and t.go:48, always returns a value in Go's 64-bit `int` range. |
| `GoStrconv.Itoa` | t.go:115 | `strconv.Itoa(id)`, here and at t.go:133, is at least one digit, preceded by `-` exactly when `id` is negative and never by `+`. It has no leading zero, and the signed number it denotes is exactly `id`. |
| `GoStrconv.NatDigits` | t.go:115 | The decimal rendering of a natural number is a non-empty string of digits. It has no leading zero, and it denotes that number. |
| `GoStrconv.AtoiItoa` | t.go:115 | For every 64-bit id, `Itoa(id)` is a decimal string and `Atoi(Itoa(id)) == id`. |
| `GoStrings.Split` | t.go:70 | `strings.Split(v, ",")` has `count(',', v) + 1` pieces, and none of them contains a comma. `""` gives one empty piece. |
| `GoStrings.JoinSplit` | t.go:70 | Joining the pieces of `Split(v, ',')` with `,` gives back `v`, so the pieces keep their order. |
| `GoStrings.SplitJoin` | t.go:70 | Splitting the join of a non-empty list of comma-free pieces gives back that list. |
| `Cli.Dispatch` | t.go:36-53 | The run is refused as invalid syntax exactly when there are fewer than 3 tokens or `args[1]` is not `-a`, `-d` or `-r`. It is the fatal `TooFewArguments` exactly when there are fewer than 3 tokens. With at least 3 tokens, `-a` adds, `-d` deletes and `-r` reads, each exactly for its flag. An add carries `argsToTask`'s outcome, whose task is named `args[2]`. A read or delete id is `Atoi(args[2])` and fits Go's `int`. |
| `Cli.TaskPath` | t.go:115 | The path of a read, and of a delete (t.go:133), is `http://localhost:1643/t/` followed by the id in Go's canonical decimal form: `-` exactly for a negative id, no `+`, no leading zero, and signed value exactly the id. |
| `Cli.TaskPathNamesId` | t.go:115 | The path of a read, and of a delete (t.go:133), is `http://localhost:1643/t/` and then a segment. That segment has no `/` and parses back to exactly the id. |
| `Cli.PathFromIdArgument` | t.go:44-48 | For `-d` and `-r`, the id in the path is the value of a decimal `args[2]`, clamped to 64 bits. A non-numeric `args[2]` whose leading digits fit in 64 unsigned bits gives the path `.../t/0`. One whose leading digits exceed that range gives the int64 bound of its sign, e.g. `99999999999999999999x` gives `.../t/9223372036854775807`. |
| `Scenarios.BuyMilkScenario` | t.go:56-77 | `t -a "Buy milk" -p 2 -t groceries,errands` builds the task with id 0, name `Buy milk`, due `""`, timestamps 0, priority 2 and topics `[groceries, errands]`. |
| `Scenarios.TrailingFlagPanics` | t.go:61-68 | `t -a x -p` ends in an index-out-of-range panic at index 4 of 4 tokens. |
| `Scenarios.CommandScenarios` | t.go:36-53 | `t -r 42` reads `http://localhost:1643/t/42`. `t -d 7` deletes `http://localhost:1643/t/7`. `t` alone is refused before any request. |

## Left out

- HTTP (`postTask`, `getTask`, `deleteTask`, `execAndReturnBody`, `populateHeaders`): these are network I/O through `net/http`. That covers building and sending the request, the two headers and the 2-second timeout. Only the path of a read or delete is modelled.
- JSON encoding and decoding of `Task` (`json.Marshal`, `json.Unmarshal`): a foreign library whose encoding rules are not part of this model. This leaves out the JSON round trip of a task.
- Console output (`printTask`, `printResponse`, `printInvalidSyntaxResponse`, and the echo of the request body): this is formatting through `fmt`. `printResponse` is never called.
- `log.Fatal`: the process exit is shown only as the `TooFewArguments` outcome of `Dispatch`. The fatal exits after a failed request are part of the HTTP code and are left out too.
- `Task.topics`: Go's nil slice (no `-t` given) is the empty sequence. `Split` never returns an empty sequence, so the two cannot be confused.
- `GoStrconv.Atoi`: this is the slow path of Go's `Atoi` (`ParseInt`). For inputs shorter than 19 bytes, Go takes a fast path that returns the same values, so that path is not modelled separately.
- Go strings are byte sequences; the model uses Dafny strings. Every character that matters is ASCII, and any other character is a syntax error to `Atoi` however it is encoded.
- `GoStrings.Split`: only a one-character separator is modelled. That is the only use in the program (`","`).
- The guard at t.go:63 is evidently meant to protect the reads of `args[i+1]` at t.go:66-70, but it does not, and a trailing flag panics (see Findings). `Cli.Dispatch` follows the code as written and uses `TaskFromArgs`, panic included. The corrected behaviour, ignoring the trailing flag, is `ArgsToTaskGuarded`.
- The priority and the id are read with `Atoi`'s error discarded (t.go:45, 48, 66). The value returned with that error is not always 0: an out-of-range number is clamped to the int64 range. The model follows Go.

## Findings

| source | as written | input that shows it | evidently intended | confidence | as-written member | corrected member |
|---|---|---|---|---|---|---|
| t.go:63 | The test `len(args) > i` sits inside `for i := 3; i < len(args); i += 2`, so it always holds. `args[i+1]` is then read at t.go:66, 68 and 70 even when the flag is the last token. | `t -a x -p` (4 tokens): reads `args[4]`, index out of range. | Test `len(args) > i+1`, so a flag with no value after it is ignored. | high; not executed | `TaskArgs.ArgsToTask`, `TaskArgs.TaskFromArgsFailsIff`, `Scenarios.TrailingFlagPanics` | `TaskArgs.ArgsToTaskGuarded` |
