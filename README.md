# BlueChi: `bluechictl list-units` and the monitor test's line follower

This project is a Dafny model of two pieces of BlueChi, the systemd service
controller for multi-node systems.

**The `bluechictl monitor` integration test**
(`tests/tests/tier0/bluechictl-monitor-unit-created-removed/python/monitor.py`)
- The test starts `bluechictl monitor node-foo simple.service` with its output
  going to a temporary file.
- A `FileFollower` reads that file as it grows: a character cursor `pos`, and a
  generator that yields each complete line after the cursor.
- The test runs a two-stage matcher over the lines. A
  `Unit created (reason: real)` line sets `created`. A later
  `Unit removed (reason: real)` line sets `removed` and ends the wait.
- The model has these parts:
  - the growing file (`Follower.TextFile`), which starts empty like the fresh `NamedTemporaryFile()`;
  - the open file object (`Follower.FileDesc`);
  - the follower (`Follower.FileFollower`);
  - the suspended generator (`Follower.LineGenerator`), whose cursor advance
    runs only when the next line is asked for;
  - the test object (`Monitor.MonitorTest`).
- Each core method is proved against specification functions:
  - `Lines.LinesFrom` and `Lines.ConsumedEnd`, the complete lines after a
    position and where a reader of them stops;
  - `Monitor.Run`, the matcher folded over a sequence of lines.
- Lemmas about these functions state the test's promises:
  - appending text never changes lines that were already complete;
  - rejoined lines read back as themselves;
  - the test passes exactly when a "removed" line follows a "created" line in
    the output the follower reads before the monitor exits.

**`bluechictl list-units`** (`src/client/method-list-units.c`)
- It fetches the units of all nodes, through the controller, or of one node,
  through that node's object.
- The units go into a reference-counted `UnitList` (`ListUnits.UnitList`).
- It prints a table:
  - each column is as wide as its widest entry over all units;
  - the separator line of `'='` is as long as a row;
  - only the units whose id matches the glob filter get a row.
- The methods `FetchUnitList` and `PrintUnitListSimple` are proved against the
  functions `Fetch` and `Table`. Lemmas about those functions prove:
  - the error codes;
  - the node stamping;
  - that the widths are maxima;
  - that every line has the same length;
  - which units the filter selects.

The model abstracts these external parts:
- The D-Bus reply is a value, `ListUnits.Reply`. It holds the call's result,
  the container-entry result and the successive results of the parse callback.
- The bus, `assemble_object_path_string` and `match_glob` are function
  parameters.
- The output of `bluechictl monitor` that the follower reads is the sequence
  of chunks that are new at each pass of the `for` loop.

Files:
- `options.dfy`: the `Option` type.
- `seqs.dfy`: a fact about sequences.
- `lines.dfy`: the newline-delimited text specification.
- `follower.dfy`: the file classes and the follower.
- `monitor.dfy`: the matcher and the test.
- `list_units.dfy`: the whole of `list-units`.

## Model

| member | source | states |
|---|---|---|
| Lines.FirstLine | tests/tests/tier0/bluechictl-monitor-unit-created-removed/python/monitor.py:35 | `split('\n')[0]` has no newline. When the text has a newline, the result followed by `'\n'` is a prefix of the text. Otherwise the result is the whole text. |
| Lines.NewlineInRest | tests/tests/tier0/bluechictl-monitor-unit-created-removed/python/monitor.py:43-45 | `'\n' in` the rest of the file after the cursor holds exactly when a complete line starts at the cursor. |
| Lines.FirstLineOfRest | tests/tests/tier0/bluechictl-monitor-unit-created-removed/python/monitor.py:34-35 | Splitting the rest of the file at its first newline gives the line that starts at the cursor. |
| Lines.ConsumedSpan | tests/tests/tier0/bluechictl-monitor-unit-created-removed/python/monitor.py:32-38 | The consumed text is exactly the yielded lines, each followed by `'\n'`, and no yielded line contains a newline. |
| Lines.LinesFromAppend | tests/tests/tier0/bluechictl-monitor-unit-created-removed/python/monitor.py:94-95 | Appending text keeps the complete lines that were already there. Two polls, one before and one after an append, yield what a single later poll would. The final stopping point is the same. |
| Lines.LinesOfJoin | tests/tests/tier0/bluechictl-monitor-unit-created-removed/python/monitor.py:32-38 | Round trip: newline-free lines written with their terminators, followed by a torn tail, read back as exactly those lines. The reader stops at the tail. |
| Lines.ReadStep | tests/tests/tier0/bluechictl-monitor-unit-created-removed/python/monitor.py:33-38 | Yielding the line at the cursor keeps the reader invariant: yielded lines plus the lines still ahead are the lines after the start. |
| Lines.ReaderDone | tests/tests/tier0/bluechictl-monitor-unit-created-removed/python/monitor.py:33 | When no complete line is left, the yielded lines are all the lines after the start, and the cursor is where reading stops. |
| Follower.TextFile.constructor | tests/tests/tier0/bluechictl-monitor-unit-created-removed/python/monitor.py:85 | The fresh `NamedTemporaryFile()` is empty. |
| Follower.TextFile.Append | tests/tests/tier0/bluechictl-monitor-unit-created-removed/python/monitor.py:87-90 | The monitor process's output is added at the end of the file, and nothing earlier changes. |
| Follower.FileDesc.Open | tests/tests/tier0/bluechictl-monitor-unit-created-removed/python/monitor.py:22 | `open(name, 'r')` reads from the start of the file and the file is open. |
| Follower.FileDesc.Seek | tests/tests/tier0/bluechictl-monitor-unit-created-removed/python/monitor.py:41 | `seek(p)` sets the read offset to `p`. |
| Follower.FileDesc.Read | tests/tests/tier0/bluechictl-monitor-unit-created-removed/python/monitor.py:35 | `read()` returns the file from the offset on, and leaves the offset at the end of the file. From beyond the end, it returns nothing. |
| Follower.FileDesc.Close | tests/tests/tier0/bluechictl-monitor-unit-created-removed/python/monitor.py:30 | `close()` marks the file object closed. |
| Follower.FileFollower.constructor | tests/tests/tier0/bluechictl-monitor-unit-created-removed/python/monitor.py:16-19 | The cursor is 0, the name is stored, and no file is open. |
| Follower.FileFollower.Enter | tests/tests/tier0/bluechictl-monitor-unit-created-removed/python/monitor.py:21-23 | A fresh file object opens the named file at offset 0. The cursor is kept. |
| Follower.FileFollower.Exit | tests/tests/tier0/bluechictl-monitor-unit-created-removed/python/monitor.py:29-30 | An open file object is closed. |
| Follower.FileFollower.Seek | tests/tests/tier0/bluechictl-monitor-unit-created-removed/python/monitor.py:40-41 | The file object's offset is put at the cursor. |
| Follower.FileFollower.NewLines | tests/tests/tier0/bluechictl-monitor-unit-created-removed/python/monitor.py:43-45 | True exactly when a complete line follows the cursor. The file is not changed. |
| Follower.FileFollower.ReadAll | tests/tests/tier0/bluechictl-monitor-unit-created-removed/python/monitor.py:32-38 | Running one generator to its end yields exactly the complete lines after the cursor, in order. The cursor ends just past the last newline. The consumed text is those lines rejoined, and no newline is left after the cursor. |
| Follower.LineGenerator.constructor | tests/tests/tier0/bluechictl-monitor-unit-created-removed/python/monitor.py:32 | A generator that has not started: nothing is yielded or pending, and it starts at the follower's cursor. |
| Follower.LineGenerator.Resume | tests/tests/tier0/bluechictl-monitor-unit-created-removed/python/monitor.py:38 | The suspended `pos += len(line) + 1` of the last yield runs, so the cursor reaches the line's end. |
| Follower.LineGenerator.Next | tests/tests/tier0/bluechictl-monitor-unit-created-removed/python/monitor.py:32-38 | A line is yielded exactly when a complete line follows the advanced cursor. It is that line, and the advance past it stays pending. Otherwise the generator is exhausted and nothing changes. Progress is measured by `Remaining`. |
| Monitor.ContainsAt | tests/tests/tier0/bluechictl-monitor-unit-created-removed/python/monitor.py:97-102 | `Contains(s, sub)`, the model of Python's `sub in s`, holds exactly when `sub` is a prefix of `s[k:]` for some `k` from 0 to `len(s)`. |
| Monitor.Step | tests/tests/tier0/bluechictl-monitor-unit-created-removed/python/monitor.py:97-110 | The flags only move forward. `removed` never comes without `created`. `removed` changes exactly when the `elif` branch fires. |
| Monitor.RunAppend | tests/tests/tier0/bluechictl-monitor-unit-created-removed/python/monitor.py:94-95 | Matching two batches of lines in turn is matching their concatenation. |
| Monitor.RunMonotone | tests/tests/tier0/bluechictl-monitor-unit-created-removed/python/monitor.py:97-107 | Over any lines, the flags stay set once set, and `removed` implies `created`. |
| Monitor.RunComplete | tests/tests/tier0/bluechictl-monitor-unit-created-removed/python/monitor.py:97-110 | Once both flags are set, no further line changes them. |
| Monitor.RunCreated | tests/tests/tier0/bluechictl-monitor-unit-created-removed/python/monitor.py:97-100 | From `setUp`, `created` ends set exactly when some line holds the created marker. |
| Monitor.RunRemoved | tests/tests/tier0/bluechictl-monitor-unit-created-removed/python/monitor.py:97-107 | From `setUp`, `removed` ends set exactly when a removed-marker line comes after a created-marker line. A "removed" line seen too early is ignored. |
| Monitor.Complete | tests/tests/tier0/bluechictl-monitor-unit-created-removed/python/monitor.py:134-135 | Both flags end set exactly when a "removed" line follows a "created" line. |
| Monitor.Drained | tests/tests/tier0/bluechictl-monitor-unit-created-removed/python/monitor.py:95-107 | A matcher that stopped because the lines ran out, or because both events were seen, ends as if it had run over all complete lines. |
| Monitor.MonitorTest.constructor | tests/tests/tier0/bluechictl-monitor-unit-created-removed/python/monitor.py:50-54 | Neither event has been seen. |
| Monitor.MonitorTest.EvaluateLine | tests/tests/tier0/bluechictl-monitor-unit-created-removed/python/monitor.py:96-110 | The flags take one matcher step. The result says the wait is over exactly when the `elif` branch fired. |
| Monitor.MonitorTest.EvaluateLines | tests/tests/tier0/bluechictl-monitor-unit-created-removed/python/monitor.py:95-110 | The flags are the matcher run over all complete lines after the cursor. It breaks exactly when `removed` becomes set. Without a break, the cursor ends past the last complete line. The file is unchanged. |
| Monitor.MonitorTest.ProcessEvents | tests/tests/tier0/bluechictl-monitor-unit-created-removed/python/monitor.py:82-113 | Polling the growing output ends with the flags that the matcher gives over all complete lines of the output the follower reads before the monitor exits. |
| Monitor.TestMonitorSpecificNodeAndUnit | tests/tests/tier0/bluechictl-monitor-unit-created-removed/python/monitor.py:120-135 | The test passes exactly when a complete "removed" line follows a complete "created" line in the output the follower reads before the monitor exits. |
| ListUnits.ParseLoopUnits | src/client/method-list-units.c:55-71 | The loop appends, in order, the units parsed before the first result that is not positive, each stamped. |
| ListUnits.ParseLoopCode | src/client/method-list-units.c:55-73 | The loop returns the first result that is not positive, or 0 at the end of the array. So it never returns a positive code. |
| ListUnits.FetchCode | src/client/method-list-units.c:42-53 | A failed call or a failed container entry returns its own code and appends nothing. A fetch never returns a positive code. |
| ListUnits.FetchStampsNode | src/client/method-list-units.c:66-70 | With a node name, every unit appended runs on that node. |
| ListUnits.UnitList.constructor | src/client/method-list-units.c:129-140 | A new list has one reference and no units. |
| ListUnits.UnitList.Append | src/client/method-list-units.c:70 | `LIST_APPEND` puts the unit at the end. Nothing else changes. |
| ListUnits.UnitList.Unref | src/client/method-list-units.c:142-153 | The count drops by one. At zero, every unit is unreferenced in list order and the list is freed. Otherwise nothing else changes. |
| ListUnits.FetchUnitList | src/client/method-list-units.c:29-74 | Returns the code of `Fetch` and appends exactly the units of `Fetch` to the list, keeping those appended before an error. The reference count is unchanged. |
| ListUnits.Max | src/client/method-list-units.c:172-175 | `umaxl` is at least both arguments and equals one of them. |
| ListUnits.WidthsAreMaxima | src/client/method-list-units.c:165-176 | Each column width fits its title and the field of every unit. It equals the title's length or some unit's field. |
| ListUnits.ColumnWidths | src/client/method-list-units.c:165-176 | The width loop computes `WidthsOf(units)`. |
| ListUnits.PadSpec | src/client/method-list-units.c:182-191 | A `%-Ns` field has length max(len, N), starts with the text and is filled with blanks. |
| ListUnits.RowLayout | src/client/method-list-units.c:178-193 | A row whose fields fit the widths is exactly `max_line_len` long. |
| ListUnits.Separator | src/client/method-list-units.c:194-196 | The separator has the given length and every character is `'='`. |
| ListUnits.SelectedAppend | src/client/method-list-units.c:198-202 | Filtering keeps list order: filtering a concatenation is concatenating the filtered parts. |
| ListUnits.SelectedSingle | src/client/method-list-units.c:199 | A single unit is printed exactly when there is no filter or its id matches. |
| ListUnits.SelectedMembers | src/client/method-list-units.c:198-202 | A unit gets a row exactly when it is in the list and passes the filter. |
| ListUnits.RowsIndex | src/client/method-list-units.c:198-202 | There is one row per printed unit, in order. |
| ListUnits.TableLines | src/client/method-list-units.c:178-202 | Every printed line, header, separator and rows, has the same length `max_line_len`. |
| ListUnits.PrintRows | src/client/method-list-units.c:198-202 | The last loop prints exactly the rows of the units that pass the filter, in list order. |
| ListUnits.PrintUnitListSimple | src/client/method-list-units.c:155-203 | Prints exactly the `Table` of the list: header, separator, then one row per unit that passes the filter. |
| ListUnits.ListingOutcome | src/client/method-list-units.c:76-122 | A listing returns 0 or a negative code. It fails exactly when the fetch fails, and then prints nothing. On success it prints two lines plus one per selected unit. |
| ListUnits.FetchAndPrint | src/client/method-list-units.c:77-93 | Fetching into a fresh list and printing it returns the code and the printed lines of `Listing`, on both the failure and the success path. The body drops the list's reference on both paths with `Unref`. No contract states that release. |
| ListUnits.MethodListUnitsOnAll | src/client/method-list-units.c:76-94 | Lists every node's units through the controller, without node stamping. |
| ListUnits.MethodListUnitsOn | src/client/method-list-units.c:96-122 | A failing object path returns its code before any call. Otherwise it lists the node's units through its object, stamped with the node name. |
| ListUnits.MethodListUnits | src/client/method-list-units.c:205-212 | With no operands it lists all nodes. Otherwise it lists the node named by the first operand. |

## Left out

**monitor.py: processes, threads, timing and output**
- The subprocess that runs `bluechictl monitor` is not modelled: `Popen`, `poll()`, and stopping it with `SIGINT` in the `finally` block. The output the follower reads is the parameter `output` of `ProcessEvents`. `output[k]` is the text that is new at the k-th pass of the `for` loop. The loop ends at the poll after the last chunk.
- Text the monitor writes after the last `for` pass, before the `poll()` that finds it exited, is never matched by `process_events`. It is not part of `output`. So a monitor that writes both event lines during the last `sleep(0.5)` and then exits fails the test, and the model agrees: those lines are not in `output`.
- The temporary file and the file-system lookup of its name are not modelled. `Enter` is given the file that the name denotes.
- The `time.sleep(0.5)` between polls is not modelled. Writes are assumed to land between polls, not while the `for` loop reads.
- `run_command` and the `bluechictl status` call that triggers the events are I/O and are not modelled. So are that call's assertions on `res` and on `"inactive"`.
- `timeout_guard`, its thread and its 10-second timeout are not modelled. A run the guard would cut short is outside the model.
- Every `print` is left out, including the one in `__exit__`. That `print`'s condition tests `exception_type` twice and never tests `exception_value`. It decides only whether a message is printed, so it has no effect on the model.

**monitor.py: text semantics**
- The file is modelled as a sequence of characters, and `seek` takes a character offset. Python's text-mode `seek` takes an opaque position, which for UTF-8 is a byte offset. So output with non-ASCII characters would desynchronise the cursor. That case is not in the model. Text mode also uses universal newlines: `read()` turns `"\r\n"` and a bare `'\r'` into `'\n'`. So in Python a bare `'\r'` ends a line, but it does not in the model. For a `"\r\n"` line, `len(line) + 1` is one character short of the line's length in the file. Only output whose lines end in `'\n'` alone is modelled.
- `Monitor.Contains` models Python's `sub in s` as a recursive definition. `Monitor.ContainsAt` proves it equivalent to "`sub` is a prefix of some suffix of `s`".

**monitor.py: weaker contracts**
- Monitor.MonitorTest.EvaluateLines: the contract does not state where the cursor stops after a `break`, which is at the start of the "removed" line. Only the case without a break is stated. After a break the test stops reading, so nothing later depends on it.

**method-list-units.c: memory and references**
- Allocation failure (`malloc0` returning `NULL`) and `strdup` failure are not modelled.
- Reference counting on individual units is not modelled: `new_unit`, `unit_ref`, and the `_cleanup_unit_` unref at the end of each iteration. The list holds unit values. `Unref` reports the units it releases.

**method-list-units.c: external calls**
- These are function parameters, not modelled code:
  - the D-Bus calls: `sd_bus_call_method`, `sd_bus_message_enter_container` and the parse callbacks `bus_parse_unit_info` and `bus_parse_unit_on_node_info`;
  - `assemble_object_path_string`;
  - `match_glob`.
- A finished parse sequence stands for the callback returning 0 at the end of the array.
- The error text written to `stderr` is not modelled.
- `command_get_option` and the `Command` and `Client` structures are reduced to the operand list and the filter.
- The `print` function pointer is always `print_unit_list_simple`, as in `method_list_units`, so the model calls it directly.

**method-list-units.c: printing and arithmetic**
- Printed lines are modelled without their `'\n'`.
- `strlen` counts bytes. The model counts characters of `seq<char>`, which is the same only for ASCII.
- `snprintf` into the 255-byte `fmt_str` is not modelled, because it can never truncate. Each `%lu` prints at most 20 digits, so the format string takes at most 4·20 + 23 = 103 bytes, with its terminator.
- `unsigned long` overflow of `max_line_len` is not modelled, for the same reason.

**Other repository files**
- The rest of the repository is not part of this model: the rest of the client, the controller and agent, `libbluechi`, and the other tests.
