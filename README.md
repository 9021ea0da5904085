# fcttest and the figure 15 helpers, modelled in Dafny

This project models two parts of a Mininet reproduction of the RC3
("Recursively Cautious Congestion Control") paper's figure 15.

**fcttest**, the flow-completion-time tool (`fcttest_src/fcttest.c`):

- `main`'s getopt loop over the option string `sca:p:g:rltv`, which
  accumulates the settings (`FctOptions.Accumulate`, `FctOptions.Run`).
- The ordered checks that follow the loop: both modes given, no port, no
  length, server, client, no mode (`FctOptions.Decide`).
- The exit status of each path those checks take.
- The server's read loop, which reads exactly `length` bytes and then
  answers with the one-byte token `$` (`FctTransfer.ServeConnection`).
- The client's token check (`FctTransfer.AwaitToken`) and its elapsed-time
  arithmetic: a 64-bit unsigned nanosecond difference split into an `int`
  second count and a remainder (`FctTime`).

The socket is a `Connection` object. Its `incoming` field holds the bytes
the peer will send; `Read` delivers any number between 1 and the number
asked for. Its `outgoing` field collects what `Write` sends.

**The figure 15 helpers** (`figure15_helpers.py`):

- `avg` and `stddev`. Each accepts a comma-separated string, a
  single-number string or a list, and turns it into a list of numbers
  (`Figure15Stats`). The standard deviation is modelled through its
  square, the population variance.
- The figure 15(a) table that `figure15a_paper_data` returns
  (`Figure15Data`). A Python dict keyed by flow length is a `PlotData`:
  its keys in the order `keys()` returns them, plus its entries.
- The data layout of `plotBarClusers` (`Figure15Layout`):
  - the flow lengths are sorted;
  - then the outer loop over the flow types and the inner loop over the
    sorted flow lengths build each bar series: its slot indices, means,
    standard deviations, colour and offset within each cluster.

Modules: `Wrappers` (Option, Result), `FctOptions`, `FctTime`,
`FctTransfer`, `Figure15Stats`, `Figure15Data`, `Figure15Layout`.

## Model

| member | source | states |
|---|---|---|
| FctOptions.ToPort | fcttest_src/fcttest.c:88-91 | storing atoi's value in the `uint16_t port` keeps it unchanged when it is in 0..65535, and otherwise reduces it modulo 2^16 |
| FctOptions.Apply | fcttest_src/fcttest.c:79-120 | one switch case stops the loop exactly when the option is getopt's `?` (the default branch) |
| FctOptions.Accumulate | fcttest_src/fcttest.c:78-121 | the state the getopt loop reaches for an option list: it stops in the default branch exactly when some option is getopt's `?` |
| FctOptions.Outcome | fcttest_src/fcttest.c:78-155 | main's verdict for an option list: the usage error exactly when some option is `?`, and otherwise the checks applied to the loop's final settings |
| FctOptions.Decide | fcttest_src/fcttest.c:123-155 | the checks after the loop, in their order; each verdict holds exactly when its own condition holds and every earlier check passed; server and client get the settings' port, length and address |
| FctOptions.Run | fcttest_src/fcttest.c:72-151 | main up to the dispatch: the getopt loop updates its locals and globals, then the checks run; the result equals the functional `Outcome` of the option list |
| FctOptions.AbortedStaysAborted | fcttest_src/fcttest.c:117-119 | once the default branch fires, no later option changes the outcome |
| FctOptions.LaterOptionsKeep | fcttest_src/fcttest.c:78-121 | recognised options never stop the loop; a flag once set stays set; the port and the length change only through a later -p or -g |
| FctOptions.NoUnknownKeepsReading | fcttest_src/fcttest.c:78-121 | an option list without `?` runs the loop to its end |
| FctOptions.UnknownOptionIsUsageError | fcttest_src/fcttest.c:117-119 | a `?` anywhere in the list gives the usage error, whatever comes before or after it |
| FctOptions.LastPortWins | fcttest_src/fcttest.c:88-91 | with repeated -p options the last one decides the port, reduced to 16 bits |
| FctOptions.LastLengthWins | fcttest_src/fcttest.c:97-100 | with repeated -g options the last one decides the length |
| FctOptions.ModeFlagsExact | fcttest_src/fcttest.c:80-87 | after a list without `?`, server mode is set exactly when -s occurs in it, and client mode exactly when -c does |
| FctOptions.BothModesRejectedFirst | fcttest_src/fcttest.c:123-128 | giving both -s and -c is rejected before the port and the length are looked at |
| FctOptions.PortCheckedBeforeLength | fcttest_src/fcttest.c:130-142 | with exactly one mode, a zero port is reported before a zero length, and with both set the tool goes on to server or client |
| FctOptions.PortWrapsToZero | fcttest_src/fcttest.c:130-135 | for any list without `?` in which the last -p carries a multiple of 65536 and -s and -c are not both given, that value becomes port 0 and main reports "Must set a port" |
| FctOptions.ExitAfterChecks | fcttest_src/fcttest.c:117-155 | as written: the usage, both-modes, port and length errors exit with EXIT_FAILURE; server and client go on; the no-mode error falls off the end of main with status 0 |
| FctOptions.NoModeExitsWithSuccess | fcttest_src/fcttest.c:153-156 | `-p 5001 -g 1460` reports "must be client or server" and still exits with status 0 |
| FctOptions.IntendedExitAfterChecks | fcttest_src/fcttest.c:153-156 | corrected: every error path exits with EXIT_FAILURE |
| FctOptions.IntendedDiffersOnlyOnNoMode | fcttest_src/fcttest.c:153-156 | the written and the corrected exit policies differ exactly on the no-mode path |
| FctOptions.NegativeLengthAccepted | fcttest_src/fcttest.c:137-147 | as written: `-s -p 5001 -g n` with a negative n passes `if (!length)` and reaches server mode with length n |
| FctOptions.IntendedDecide | fcttest_src/fcttest.c:137-142 | corrected: a zero or negative length is a missing length; server and client only ever get a positive length and a non-zero port; for positive lengths the result is the written check's |
| FctTime.Nanos | fcttest_src/fcttest.c:286-288 | `tv_nsec + tv_sec * 10^9` fits in a signed 64-bit long and encodes the timestamp: its quotient by 10^9 is tv_sec and its remainder is tv_nsec |
| FctTime.NotBeforeIsNanosOrder | fcttest_src/fcttest.c:286-288 | comparing timestamps field by field agrees with comparing their nanosecond counts |
| FctTime.NanoDiff | fcttest_src/fcttest.c:286-288 | `nanodiff` lies in the uint64 range; it is the true difference when finish is not before start, and 2^64 minus the gap otherwise |
| FctTime.ToInt32 | fcttest_src/fcttest.c:289 | the conversion to `int` lies in the 32-bit signed range, is congruent to its input modulo 2^32, and keeps values below 2^31 |
| FctTime.Split | fcttest_src/fcttest.c:289-290 | `nsecs` is below one second, and below 2^31 seconds the pair recombines to `nanodiff` |
| FctTime.ElapsedIsBorrowDiff | fcttest_src/fcttest.c:286-290 | for a finish not before the start and under 2^31 - 1 seconds later, `secs, nsecs` is the timespec subtraction with borrow, and recombines to the exact elapsed nanoseconds |
| FctTransfer.Connection.constructor | fcttest_src/fcttest.c:198-202 | a freshly connected socket (the `client_fd` accept returns, or the client's connected `fd`): the peer's bytes are waiting and nothing has been sent yet |
| FctTransfer.Connection.Read | fcttest_src/fcttest.c:212 | read(2) on the socket: delivers between 1 and n waiting bytes into the buffer at the offset, consumes them and leaves the rest of the buffer alone; at the end of the stream it returns 0, or -1 on an error |
| FctTransfer.Connection.Write | fcttest_src/fcttest.c:226 | write(2) appends its bytes to what the peer receives |
| FctTransfer.ServeConnection | fcttest_src/fcttest.c:209-226 | the token is sent exactly when the peer sends at least `length` bytes; then the buffer holds the first `length` bytes and only those are consumed; otherwise the bad read's 0 or -1 is reported, all bytes have been consumed and nothing is written |
| FctTransfer.AwaitToken | fcttest_src/fcttest.c:274-284 | the check succeeds exactly when the first byte the server sends is `$`; that one byte is consumed |
| FctTransfer.RunClient | fcttest_src/fcttest.c:270-290 | the client sends its `length` bytes; it gets a time exactly when the token check passes, and the time is the nanodiff of the two clock readings and its secs/nsecs split; exactly the one token byte is consumed from the socket and its end-of-stream behaviour is unchanged |
| Figure15Stats.Split | figure15_helpers.py:9 | `str.split(',')` always yields at least one field |
| Figure15Stats.SplitJoin | figure15_helpers.py:9 | the fields of a split contain no comma and join back to the input |
| Figure15Stats.JoinSplit | figure15_helpers.py:9 | splitting the join of comma-free fields gives the fields back |
| Figure15Stats.NoCommaSplit | figure15_helpers.py:8-11 | a string without a comma splits into itself alone |
| Figure15Stats.CommaSplitsInTwo | figure15_helpers.py:8-9 | a string with a comma splits into at least two fields |
| Figure15Stats.ParseAll | figure15_helpers.py:9 | the list comprehension over float(): on success one number per field, each what float() gives for its field; on failure the error names the first field float() rejects |
| Figure15Stats.Normalize | figure15_helpers.py:8-13 | the branch that turns `s` into `lst`: a list is taken as it is; a string that parses gives a non-empty list; the only failure is a string field float() rejects |
| Figure15Stats.ParseAllOk | figure15_helpers.py:9 | when every field parses, the comprehension yields exactly those numbers |
| Figure15Stats.TextIsSplitThenParse | figure15_helpers.py:8-11 | the single-string branch agrees with the comma branch: both are the split followed by float() |
| Figure15Stats.TextNeverEmpty | figure15_helpers.py:8-11 | a string that parses always gives a non-empty list |
| Figure15Stats.FormatInvariance | figure15_helpers.py:8-13 | the same numbers as a comma-joined string and as a list normalise to the same list |
| Figure15Stats.RunningSumIsSum | figure15_helpers.py:14 | `sum(lst)`, a running total from the left, equals the list's sum `Sum` |
| Figure15Stats.MeanOf | figure15_helpers.py:14 | `sum(lst)/len(lst)` raises ZeroDivisionError exactly on an empty list; otherwise the mean times the length is the sum |
| Figure15Stats.Avg | figure15_helpers.py:6-14 | avg raises ZeroDivisionError exactly for an empty list, and otherwise fails only on a string field float() rejects; a result times the number of samples is their sum |
| Figure15Stats.VarianceOf | figure15_helpers.py:25 | the square of `np.std(lst)`: nan exactly on an empty list; otherwise the population variance, whose value times N is the sum of squared deviations from the mean, and which is never negative |
| Figure15Stats.Variance | figure15_helpers.py:16-25 | the square of stddev: nan exactly for an empty list, otherwise fails only on a string field float() rejects; a result is the population variance of the normalised list and is never negative |
| Figure15Stats.TwoSamples | figure15_helpers.py:25 | np.std divides by N, not N - 1: the variance of two samples a and b is (a - b)^2 / 4 |
| Figure15Stats.AvgOfCommaString | figure15_helpers.py:8-14 | avg of a comma string is the sum of its parsed fields over their count, and there are at least two fields |
| Figure15Stats.AvgOfSingleString | figure15_helpers.py:10-14 | avg of a comma-free string is its one number |
| Figure15Stats.EmptyListFails | figure15_helpers.py:12-25 | avg of an empty list raises ZeroDivisionError; np.std of it is nan |
| Figure15Stats.SumBounds | figure15_helpers.py:14 | the sum of n numbers between lo and hi lies between n * lo and n * hi |
| Figure15Stats.MeanWithinBounds | figure15_helpers.py:14 | the mean of a non-empty list lies between any lower and upper bound of its elements |
| Figure15Stats.SquaredDeviationsNonNegative | figure15_helpers.py:25 | a sum of squared deviations is never negative |
| Figure15Stats.VarianceNonNegative | figure15_helpers.py:16-25 | the variance stddev takes the root of is never negative, for every input form |
| Figure15Stats.StatsFormatInvariant | figure15_helpers.py:6-25 | avg and stddev give the same result for the same numbers as a comma-joined string and as a list |
| Figure15Data.KeysAreRows | figure15_helpers.py:38-88 | a dict's `keys()` lists exactly the flow lengths that have entries |
| Figure15Data.Row | figure15_helpers.py:39-45 | one flow length's entry has exactly the six series; the four from the paper carry their values, the two Mininet placeholders are zero |
| Figure15Data.PaperRow | figure15_helpers.py:38-88 | every entry of the table has the six series, all with non-negative mean and stddev |
| Figure15Data.PaperTable | figure15_helpers.py:38-88 | the `data` dict is well formed; its keys, in the order of the literal, are `flow_completion_times`; every entry has the six series with non-negative values |
| Figure15Data.PaperFlowTypes | figure15_helpers.py:90-95 | `flow_types` lists the six series once each |
| Figure15Data.PaperColors | figure15_helpers.py:98-103 | `flow_type_colors` gives a colour to exactly the six series |
| Figure15Data.PaperData | figure15_helpers.py:36-105 | the returned tuple: a well-formed table keyed by the seven flow lengths; six distinct flow types; each entry has a cell for exactly those types; each type has a colour; values are non-negative; the title is "Figure 15(a)" |
| Figure15Layout.Insert | figure15_helpers.py:137 | inserting a new key into an ascending list keeps it ascending and adds exactly that key |
| Figure15Layout.SortKeys | figure15_helpers.py:137 | `sorted(plot_data.keys())` is strictly ascending and holds exactly the keys |
| Figure15Layout.IncreasingUnique | figure15_helpers.py:137 | two strictly ascending lists with the same elements are equal, so the sorted list is determined by the key set |
| Figure15Layout.SortKeysOfIncreasing | figure15_helpers.py:137 | sorting an already ascending key list changes nothing |
| Figure15Layout.KeyOrderIrrelevant | figure15_helpers.py:137 | two dicts with the same entries sort to the same flow lengths, whatever order they keep their keys in |
| Figure15Layout.PaperFlowLengths | figure15_helpers.py:137 | for the paper table, the sorted flow lengths are `flow_completion_times` |
| Figure15Layout.FlowCompletionTimesIncreasing | figure15_helpers.py:36 | `flow_completion_times` is strictly ascending |
| Figure15Layout.Column | figure15_helpers.py:147-158 | a series has parallel ind/means/stddevs of equal length; its slots are strictly ascending; each slot's cell has the type and gives the mean and stddev; every slot whose cell has the type is in `ind` |
| Figure15Layout.ColumnLength | figure15_helpers.py:151-158 | a series has exactly one bar per flow length whose entry holds the type |
| Figure15Layout.CompleteColumnHasNoGaps | figure15_helpers.py:151-158 | when every entry holds the type, the slots are 0, 1, ..., n - 1 |
| Figure15Layout.PaperColumnsComplete | figure15_helpers.py:151-158 | in the paper figure every flow type has a bar at all seven flow lengths |
| Figure15Layout.BuildColumn | figure15_helpers.py:147-158 | the inner loop, with `ind_count` counting slots, builds exactly the series `Column` specifies |
| Figure15Layout.BuildSeries | figure15_helpers.py:146-164 | the outer loop succeeds exactly when every flow type has a colour, and otherwise raises KeyError at the first type without one; series j has type j's label, offset j, colour and column |
| Figure15Layout.LayoutBars | figure15_helpers.py:137-164 | without flow types the bar width raises ZeroDivisionError; otherwise the KeyError case as above; on success the flow lengths are the sorted keys (strictly ascending, exactly the dict's keys), the labels (`rect_labels`, line 162) are `flow_types`, and series j is flow type j's column at offset j with its colour |

## Left out

- Sockets: socket, bind, listen, accept, connect and close are left out, as are their error exits. `set_rc3_options` (setsockopt) is left out too. Connection is the connected socket after accept or connect.
- do_server's endless accept loop (`while (1)`) is left out. ServeConnection models one pass of it, after accept.
- clock_gettime is left out. RunClient takes the two timestamps as parameters.
- `f_msecs` is floating point and is left out. So is the printing of the result.
- atoi is left out. An option carries the integer atoi produced.
- float() parsing is left out. The helpers take it as a parameter that yields no value where float() raises ValueError.
- sqrt in np.std is left out. stddev is modelled by its square, the population variance.
- All matplotlib drawing is left out: the bar width value, ticks, titles and saving the figure. Only the ZeroDivisionError of `0.9/len(flow_types)` is kept.
- vprintf, the usage text and the stderr messages are left out. Each verdict stands for the message its path prints.
- rc3test.py, which drives fcttest from Mininet, is not part of this model.
- `serv_addr.sin_port = port` stores the port without htons. The model keeps the port as an integer and does not model byte order.
- do_client passes a null address to inet_aton when -c is given without -a. The model carries the address as an Option and leaves out what inet_aton does with a null pointer.
- FctTransfer.RunClient: requires `1 <= length`. A zero length cannot reach the client; a negative one is shown under Findings. The behaviour of `malloc(length)` and `write` for such lengths is not modelled.
- FctTransfer.ServeConnection: requires `length <= buffer.Length`. This stands for `malloc(length)` succeeding. A failing malloc is not modelled.
- FctTransfer.Connection: once `incoming` is drained, a read returns 0 or -1 at once, as if the peer had closed or failed. A peer that sends fewer than `length` bytes and keeps its end open would leave the read at line 212 blocked forever; with mismatched -g values on the two ends both sides then wait on each other. The model reports ReadFailed instead and does not capture that deadlock.
- FctTransfer.Connection.Write: models write(2) as sending every byte. Short writes and write errors are not modelled.
- FctOptions.Run: follows `Decide`, the checks as written, so a negative length reaches server or client mode. IntendedDecide is the corrected check.
- The helpers are modelled with Python 3 semantics. `Values` stands for a list of floats, and `sum(lst)/len(lst)` is true division. Under Python 2, a list of ints would give floor division (`avg([1, 2])` is 1), and this is not modelled. Python 2 also returns `keys()` in hash order; `Figure15Layout.KeyOrderIrrelevant` shows the layout is the same for any order.
- Figure15Stats.Variance: stands for stddev's square, because sqrt is not modelled. The 64-bit rounding of sum, division and np.std is not modelled either: numbers are exact reals. So `float("inf")` and `float("nan")`, which Python accepts, have no value in the model, and the infinite or nan averages they produce are left out.

## Findings

| source | as written | input that shows it | evidently intended | confidence | as-written member | corrected member |
|---|---|---|---|---|---|---|
| fcttest_src/fcttest.c:153-156 | after "[ERROR] must be client or server." and the usage text, main falls off its end and returns 0 | `fcttest -p 5001 -g 1460` | exit with EXIT_FAILURE like every other error path | medium, not executed | FctOptions.NoModeExitsWithSuccess | FctOptions.IntendedExitAfterChecks |
| fcttest_src/fcttest.c:137-142 | `if (!length)` rejects only zero, so a negative flow length passes the checks | `fcttest -s -p 5001 -g -5` | accept only a positive length, the number of bytes of the flow | medium, not executed | FctOptions.NegativeLengthAccepted | FctOptions.IntendedDecide |
