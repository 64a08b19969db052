# grid-search: the graph model, strategy dispatch and argument check

This project models in Dafny the parts of the grid path-finder that turn a
character map into a search graph and choose how the graph is searched. It
also proves what those parts promise.

- `wrappers.dfy` (module `Wrappers`): `Option`, `Result` and `Outcome`.
- `grid_graph.dfy` (module `GridGraph`): `create_instance` of `src/main.py`.
  - Every `'.'` cell becomes a walkable state labelled `(row, column)`.
  - Each such state receives an ordered list of weighted edges to the
    walkable cells among its eight neighbours.
  - A diagonal move is allowed only when both side cells are walkable
    (no corner cutting).
  - An orthogonal move costs 1 and a diagonal move costs 1.5.
  - The construction is imperative, like the source: two passes of nested
    `for` loops update a map from labels to states. Each pass holds its
    row and column loops in one method. In the second pass, the row-offset
    loop, the column-offset loop and the loop body are methods of their own.
    They keep the source's offset clipping and its four-cell test.
  - The result is proved equal to a reference definition, `Successors`:
    every legal move in lexicographic offset order. The edge properties are
    then proved about that definition and about the built map.
- `dispatch.dfy` (module `Dispatch`): the strategy choice at the top of
  `solve` in `src/main.py`.
  - The result is either the search call it would make (a start and a
    fringe, with the heuristic aimed at the goal) or the error it stops with.
- `search_graph.dfy` (module `SearchGraph`): the `State` and `Instance`
  classes of `search.py`, as Dafny classes whose methods update fields.
  - `State.__hash__` is modelled through explicit decimal text: `str` of
    each label part, concatenated, then `int`.
- `arguments.dfy` (module `Arguments`): the `argv` check of the top-level
  `main.py`, as a function from the argument list to accept or reject.

The model follows the code as written:
- Labels are `(row, column)`: the first part indexes the rows, below
  `height`.
- `set_goal` checks only the walkable flag of the state it is given. It
  raises `ValueError` for a blocked state, and it does not check that the
  state belongs to the instance.
- `add_state` overwrites an existing entry with the same label.
- `best-first` always uses the Manhattan distance. The dispatch knows five
  algorithms: `a-star`, `best-first`, `uniform-cost`, `limited-depth-first`
  and `iterative-deepening`.
- `limited-depth-first` without a limit fails with the `TypeError` of
  `float(None)`.
- The iterative-deepening branch never increments its local `limit`.
- The argument check accepts `best-fit`, which the dispatch of
  `src/main.py` does not know. It rejects `best-first` and
  `limited-depth-first`, which the dispatch does know.
  `Arguments.AcceptedArgumentsDispatch` states the mismatch.

Python exceptions are modelled as values, not as preconditions: `KeyError`,
`ValueError`, the `AttributeError` of `is_goal` with no goal, `TypeError`,
and the exits of `throw_error` and `usage_error`.

## Model

| member | source | states |
|---|---|---|
| GridGraph.CreateInstance | src/main.py:5-25 | The result has a state exactly for the `'.'` cells, each labelled with its own `(i, j)`, walkable, and holding exactly its legal moves in offset order (`IsInstance`). |
| GridGraph.AddStates | src/main.py:8-11 | After the first pass, the keys are exactly the walkable cells, each mapped to a walkable state labelled `(i, j)` with no successors. |
| GridGraph.AddAllSuccessors | src/main.py:13-23 | After the row-major second pass over every cell, each state of the first pass holds its full reference successor list, and no key is added or removed. |
| GridGraph.AddSuccessors | src/main.py:15-23 | With the row offsets clipped to the grid, cell `(i, j)` gains exactly `Successors(g, (i, j))`, appended after what it had. Clipping loses no edge. A cell without a state is left alone. |
| GridGraph.AddRowSuccessors | src/main.py:16-23 | For row offset `x`, with the column offsets clipped to the grid, the cell gains the legal moves `(x, -1)`, `(x, 0)`, `(x, 1)` in that order. |
| GridGraph.AddSuccessorIfLegal | src/main.py:20-23 | The edge to `(i + x, j + y)` with cost `min(1.5, abs(x) + abs(y))` is appended exactly when the move is legal; otherwise the map is unchanged. |
| GridGraph.StepMatches | src/main.py:20-22 | Inside the clipped ranges, the source's test (non-zero offset; start, target and both side cells `'.'`) is exactly the `Legal` predicate. |
| GridGraph.NoEdgesOffGrid | src/main.py:15-16 | A row of offsets that leaves the grid yields no edge, and neither does column offset -1 at column 0, so clipping the lower ends of the ranges skips nothing. |
| GridGraph.LastRowOffGrid | src/main.py:15 | At the last row, row offset 1 adds no edge, so clipping the upper end of the row range skips nothing. |
| GridGraph.LastColumnOffGrid | src/main.py:16 | At the last column, column offset 1 adds no edge, so clipping the upper end of the column range skips nothing. |
| GridGraph.SuccessorsExactly | src/main.py:18-23 | An edge is in a successor list if and only if it leads to one of the eight surrounding cells by a legal move, at cost `min(1.5, abs(x) + abs(y))`. |
| GridGraph.EdgeProperties | src/main.py:20-23 | Every edge joins two walkable in-bounds cells and is not a self-loop. It goes to a neighbour and cuts no corner. It costs 1 when orthogonal and 1.5 when diagonal. |
| GridGraph.EdgePresent | src/main.py:18-23 | Conversely, every move between walkable neighbours whose two side cells are walkable is an edge, with its cost. |
| GridGraph.SuccessorsSymmetric | src/main.py:20-23 | If `p` has an edge to `q` with cost `c`, then `q` has an edge to `p` with cost `c`. |
| GridGraph.SuccessorsShape | src/main.py:18-19 | A state has at most 8 successors, in strictly increasing lexicographic order of the offset. |
| GridGraph.InstanceEdges | src/main.py:5-25 | In the built map, every edge leads to another state of the map, stays in bounds and cuts no corner. It has the cost of its direction, and the reverse edge has the same cost. |
| GridGraph.InstanceStates | src/main.py:8-11 | Every state of the built map is a `'.'` cell, carries its own label, is walkable, and has at most 8 successors in lexicographic order. |
| Dispatch.Solve | src/main.py:27-68 | A rejected goal stops everything first. The result is a search exactly when the algorithm is known, `a-star` has `manhattan` or `octile`, and `limited-depth-first` has a limit. A search starts from `start`. `a-star` gets an A* fringe with the named distance. `best-first` gets the Manhattan distance. `uniform-cost` gets the uniform-cost fringe. `limited-depth-first` gets the limit text. `iterative-deepening` starts at limit 0. Every heuristic aims at the goal. Each failure arises exactly for its own input: `TypeError` for `limited-depth-first` without a limit, "heuristic is mandatory for a-star" and "invalid heuristic" for `a-star` without a heuristic or with an unknown one, and "invalid algorithm" for an unknown name. |
| Dispatch.AStarErrors | src/main.py:30-38 | `a-star` without a heuristic is "heuristic is mandatory for a-star". With an unknown heuristic it is "invalid heuristic". `manhattan` and `octile` give an A* fringe with that distance, aimed at the goal. |
| Dispatch.HeuristicIgnored | src/main.py:40-46 | For every algorithm other than `a-star` and `limited-depth-first`, the heuristic argument does not change the result. `best-first` always uses the Manhattan distance. |
| Dispatch.UnknownAlgorithm | src/main.py:67-68 | Any name outside the five algorithms is "invalid algorithm". |
| SearchGraph.State.constructor | search.py:2-5 | A new state has the given label and flag and no successors. |
| SearchGraph.State.AddSuccessor | search.py:7-8 | The state is appended to the end of the successor list. |
| SearchGraph.State.Hash | search.py:10-11 | With a negative second label part, `int` fails. Otherwise the hash is the magnitude of the first part times ten to the digit count of the second, plus the second, negated when the first part is negative. |
| SearchGraph.LabelHash | search.py:10-11 | For the label parts `a` and `b`: with `b` negative, `int` fails, since a minus sign stands inside the text. Otherwise the text is the digits of `abs(a)` followed by those of `b`, read back as a number and signed like `a`. |
| SearchGraph.ValueDigits | search.py:11 | Reading back the digits `str` writes for any `n >= 0` gives `n` again. |
| SearchGraph.HashCollisions | search.py:10-11 | Distinct labels collide: (1, 12) and (11, 2) both hash to 112, and (0, 12) and (1, 2) both hash to 12. |
| SearchGraph.HashInjectiveSameWidth | search.py:10-11 | Labels with non-negative parts whose second parts have the same digit count never collide. |
| SearchGraph.Instance.constructor | search.py:14-16 | A new instance has no states and no goal. |
| SearchGraph.Instance.SetGoal | search.py:18-22 | A walkable state becomes the goal, and `is_goal` then holds for it. A blocked one raises "goal state is not reachable" and keeps the old goal. The states are untouched either way. |
| SearchGraph.Instance.IsGoal | search.py:24-25 | With a goal set, the answer is label equality with the goal. With none, it is `AttributeError`. |
| SearchGraph.Instance.IsGoalByLabel | search.py:24-25 | Two states with the same label get the same answer, whatever their flags and successors. |
| SearchGraph.Instance.AddState | search.py:27-28 | Key `(i, j)` maps to a fresh state with label `(i, j)`, flag `free` and no successors. Any earlier entry is replaced. Other keys and the goal are unchanged, and labels still match keys. |
| SearchGraph.Instance.AddSuccessor | search.py:30-31 | A missing `(i, j)` raises `KeyError((i, j))` first, then a missing `(p, q)` raises. On success the state under `(p, q)` is appended to the list of `(i, j)`. The map, the goal and every other state's list are unchanged. |
| Arguments.Validate | main.py:12-35 | A length other than 7 or 8 gives the bare usage line. The arguments are accepted exactly when the algorithm is `best-fit`, `uniform-cost` or `iterative-deepening`, or is `a-star` with `manhattan` or `octile` as eighth argument. Every error message is one of the three known ones. |
| Arguments.AStarRejections | main.py:17-24 | `a-star` with 7 arguments is "heuristic is mandatory for a-star". With an eighth argument other than `manhattan` or `octile` it is "invalid heuristic". |
| Arguments.OtherAlgorithmsRejected | main.py:34-35 | Every other algorithm name, `best-first` and `limited-depth-first` included, is "invalid algorithm". |
| Arguments.OtherFieldsIgnored | main.py:15 | Argument lists that agree on length, algorithm and heuristic get the same verdict: the map name and coordinates are never checked. |
| Arguments.HeuristicOptional | main.py:28-33 | `best-fit`, `uniform-cost` and `iterative-deepening` are accepted with or without an eighth argument. |
| Arguments.AcceptedArgumentsDispatch | main.py:28-29 | Accepted arguments lead the dispatch of `src/main.py` to a search (given an accepted goal), except `best-fit`, which it rejects as "invalid algorithm". |

## Left out

- The search engine is not part of this model: `search`, the fringe classes, the heuristics, `SolutionNotFoundError` and `InvalidGoalError` live in the module imported at `src/main.py:2`. `Dispatch.Solve` ends in a `Plan` naming the search call it would make.
- The iterative-deepening loop (`src/main.py:47-66`) is reduced to its first fringe, at limit 0. It depends on fringe internals that are not part of this model. Its local `limit` is never incremented, so a fresh fringe restarts at 0 and the interrupt message reports 0.
- `Dispatch.Solve`: the limit of `limited-depth-first` is kept as its raw text. `float` parsing, and its `ValueError` on non-numeric text, are not modelled.
- `Dispatch.Solve`: the goal registration `solve` performs first belongs to a different `Instance` than `search.py`'s (it takes a label). Its outcome enters as the parameter `goalAccepted`.
- `create_instance` calls a five-argument `add_successor` with a cost, which `search.py`'s `Instance` does not have. The result is therefore modelled as a map of `GridState` values, not through `SearchGraph.Instance`.
- `GridGraph.CreateInstance`: requires that the grid has `height` rows of at least `width` cells. With a shorter row the source raises `IndexError`; that path is not modelled.
- `GridGraph.CreateInstance`: `width` and `height` are natural numbers. For negative values Python's `range` is empty and no state is built.
- Edge costs are Dafny reals. Python's `min(1.5, 1)` returns the integer 1; its value is the same.
- `create_image` and `main` of `src/main.py` are not modelled: image rendering, file reading, map-header parsing and printing.
- `throw_error` and `usage_error`: the printed lines and `sys.exit` are modelled only as error values.
- `Arguments.Validate`: with an empty `argv`, `usage_error` itself fails reading the program name. The model returns the usage rejection (Python never passes an empty `argv`).
- `SearchGraph.State.Hash`: models the value `__hash__` returns. Python's built-in `hash()` then reduces large values and maps -1 to -2; that is not modelled. `int` also accepts whitespace and underscores, which `str` never produces.
- `SearchGraph.Instance.AddSuccessor`: "every other state's list is unchanged" is stated for instances that keep each state under its own label (`Valid`). A state object stored under two keys would share one list.
- `State.label` and `State.info` are constants in the model because nothing in `search.py` reassigns them. The label field is named `cell`, since `label` is a reserved word in Dafny.
