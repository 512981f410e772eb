# Restaurant reservation slot-filling controller, modelled in Dafny

This project models the core of a small dialogue controller that collects a restaurant reservation over several user turns. The model covers two things:

- **The completeness check.** `all_fields_filled` walks the record's field table in declaration order. It reports "incomplete" as soon as it finds a field whose default is not `None` and whose current value still equals that default. The live `ReservationData` schema declares one field, `name`, with default `""`.
- **The per-turn controller**, a graph with two nodes:
  - The router extracts data from the newest user message, unless a question is pending. It merges a non-empty extraction into the record and announces `"Reserva realizada con éxito"` once the record is complete.
  - `check_data` ends the invocation or routes to the question node.
  - The question node appends one assistant question and raises the `asking` flag.

  Each user turn is one invocation of the graph, with `asking` reset to false. The console loop stops when the newest message is the success text.

Files:

- `wrappers.dfy` holds `Option`.
- `reservation_schema.dfy` models `reservation_schema.py`. The check is generic over a table of `FieldSlot`s (a default as `Option`, plus the current value). It is then instantiated with the live one-field schema.
- `reservation_graph.dfy` models `reservation_graph.py`:
  - the state and the node updates;
  - the graph reducers (`Apply`: messages are appended, other keys are overwritten);
  - the graph run (`Run`, via the edges START→router, router→check_data and ask_question→router);
  - one turn (`Turn`);
  - the console loop (`Converse`, an imperative `while` loop proved against the fold `SessionAfter`).

Inputs the model does not compute:

- **Extractor output.** Each turn carries an `Oracle` whose `extract` function stands for the extractor applied to the newest message's text. Its result is `None` or a map. Python truthiness becomes `Truthy`: present and non-empty.
- **Question text.** The `Oracle` also carries the question text that the phrasing model would return.
- **The merge helper.** `assign_if_default` is imported through `from reservation_schema import *` (reservation_graph.py:17), but reservation_schema.py does not define it. It is a function-typed parameter (`Assign`) with no contract attached.

Facts about the code that the model keeps:

- **One live field.** Only `name` is declared. The other fields of `ReservationData` are commented out.
- **Resetting `asking`.** The router never clears `asking`. Each turn's invocation input resets it (reservation_graph.py:132).
- **No error handling.** An exception from the extractor or the LLM propagates out of the node and ends the loop.
- **The stop test compares text.** A question whose text equals the success text also stops the loop (`TurnCompletesIff`).

## Model

| member | source | states |
|---|---|---|
| `ReservationSchema.AllFieldsFilled` | reservation_schema.py:10-28 | The in-order walk with an early `return False` is true iff no field has a non-`None` default equal to its current value. So it is false iff some such field exists. |
| `ReservationSchema.EmptyTableIsFilled` | reservation_schema.py:28 | A table with no fields is complete (vacuous truth). |
| `ReservationSchema.NoneDefaultNeverBlocks` | reservation_schema.py:25 | A field whose default is `None` never makes the record incomplete. Changing its value, or removing it from the table, leaves the answer unchanged. |
| `ReservationSchema.OrderIndependent` | reservation_schema.py:20-26 | Any rearrangement of the fields (equal multisets) gives the same answer, so the order of the walk does not matter. |
| `ReservationSchema.FieldTable` | reservation_schema.py:4 | The live field table has exactly one field: `name`, with default `""` and the record's current name. |
| `ReservationSchema.IsComplete` | reservation_schema.py:4 | `all_fields_filled` on a `ReservationData`. With the live schema, the record is complete iff its `name` is not `""`. |
| `ReservationSchema.NewReservationData` | reservation_schema.py:3-4 | A freshly created `ReservationData()` is not complete. |
| `ReservationGraph.Apply` | reservation_graph.py:21-24 | Merging a node's update into the state. The old history is a prefix of the new one, followed by exactly the update's messages. `asking` and the record take the update's value when the update mentions them and keep their old value otherwise, so an empty update changes nothing. |
| `ReservationGraph.CurrentRecord` | reservation_graph.py:45 | The router's starting record is the stored record when there is one. Otherwise it is a fresh, incomplete record. |
| `ReservationGraph.Merge` | reservation_graph.py:54-55 | A falsy extraction leaves the record exactly as it was. Only a truthy one is handed to the merge helper. |
| `ReservationGraph.RouterNode` | reservation_graph.py:30-66 | The router never sets `asking` and always hands back a record. While asking, it adds no message and returns the stored (or fresh) record unchanged. Otherwise, a falsy extraction leaves the record unchanged, and a truthy one goes through the merge helper. It appends nothing or exactly the success message, and the latter iff it is not asking and the record is now complete. |
| `ReservationGraph.RouterSkipsExtractionWhileAsking` | reservation_graph.py:48-50 | While asking, the router's result does not depend on the extractor or the merge helper at all. |
| `ReservationGraph.CheckData` | reservation_graph.py:97-106 | Routes to END iff `asking` holds or the record is complete (named), otherwise to `ask_question`. It never routes back to the router. |
| `ReservationGraph.AskQuestionNode` | reservation_graph.py:68-95 | ask_question's update is exactly one assistant message carrying the question, with `asking` set to true and the record not mentioned. Its effect on the state is `AskQuestionEffect`. |
| `ReservationGraph.AskQuestionEffect` | reservation_graph.py:95 | Applying ask_question's update appends exactly one assistant message (the question), sets `asking` to true and keeps the record. |
| `ReservationGraph.Run` | reservation_graph.py:118-120 | From any position the run reaches END within the rank bound: at most 3 node executions from the router when not asking. It runs the extractor exactly once when started at the router without asking, and never otherwise. It asks at most one question, only appends to the history, and leaves a record in the state. |
| `ReservationGraph.InvokeInput` | reservation_graph.py:132 | Merging an invocation's input into the stored state appends the user's utterance, resets `asking` to false and keeps the record. The router can then extract from that utterance. |
| `ReservationGraph.Turn` | reservation_graph.py:132-134 | One turn ends within three node executions, runs the extractor exactly once, asks at most one question and leaves a record in the state. Its exact result is `TurnOutcome`. |
| `ReservationGraph.TurnOutcome` | reservation_graph.py:130-134 | One turn in full. The record becomes the merge of that turn's extraction, and `asking` becomes "record incomplete". The history grows by the utterance plus either the success message or the question. The node trace is [router] if the record is complete, and [router, ask_question, router (not extracting)] otherwise. |
| `ReservationGraph.Completed` | reservation_graph.py:137 | The loop's stop test: the newest message's text is the success text. Its own contract only says it never holds on an empty history; what it means after a turn is stated by `TurnCompletesIff`. |
| `ReservationGraph.TurnCompletesIff` | reservation_graph.py:137 | After a turn, the loop's stop test holds iff the turn's record is complete or the phrased question equals the success text. |
| `ReservationGraph.UnfinishedSessionIsIncomplete` | reservation_graph.py:137-139 | A session state that has not ended on the success message holds no record yet or an incomplete one. So every turn the loop plays starts from an incomplete record. |
| `ReservationGraph.HistoryOnlyGrows` | reservation_graph.py:22 | Across turns the message history of each earlier session state is a prefix of every later one. |
| `ReservationGraph.Converse` | reservation_graph.py:130-139 | The loop plays turns in order. It stops early only when the newest message is the success text, and it never plays a turn after such a message. Its final state is the fold of the turns it played. |

## Left out

- The extractor module (`extraction_agent.py`), an LLM tool-calling wrapper. Its per-turn result is an input. Its real output is a list of tool-call dictionaries, abstracted here as an optional map that is falsy when absent or empty.
- The body of `assign_if_default`. It is imported through `from reservation_schema import *` (reservation_graph.py:17), but reservation_schema.py does not define it. It is an arbitrary function parameter, so the model proves nothing about how extracted values reach the record.
- `list_unfilled_fields`, which is not defined in reservation_schema.py either, and the prompt and LLM call in `ask_question` (reservation_graph.py:74-93). Their only effect is the question text, which is an input. The `name` and `description` of each `FieldSlot` are carried for that helper only.
- The in-place mutation of the record object by the merge helper, and any aliasing between the stored record and the router's copy. The model passes record values.
- The checkpointer, thread configuration and framework internals. The three edges and the reducers are written out directly. `add_messages` is modelled as plain appending, because new messages carry fresh identifiers.
- Console input, printing, `quit()` and the `graph.png` file. The loop's turns are a finite sequence given up front, and only the stop test is kept.
- Exceptions raised by the external calls. The code does not catch them, so no error path is modelled.
- The `ic` debug logging.
- The commented-out fields of `ReservationData`, which are not live code.
