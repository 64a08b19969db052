// The strategy selection at the top of `solve` (src/main.py:27-45, 67-68):
// given the outcome of registering the goal, the algorithm name and the
// optional heuristic argument, choose the fringe to search with, or stop with
// an error. The search itself is not modelled: a successful dispatch is the
// `Plan` describing the `search(instance, start, fringe)` call it would make.

module Dispatch {
  import opened Wrappers
  import GridGraph

  /** The two distance estimates a fringe can be built with, each aimed at the goal. */
  datatype Heuristic = Manhattan(goal: GridGraph.Label) | Octile(goal: GridGraph.Label)

  /**
   * The fringe handed to the search. `LimitedDepthFirst` keeps the limit
   * argument as its raw text; `IterativeDeepening` starts from limit 0.
   */
  datatype Fringe =
    | AStar(heuristic: Heuristic)
    | BestFirst(heuristic: Heuristic)
    | UniformCost
    | LimitedDepthFirst(limitText: string)
    | IterativeDeepening(limit: int)

  /** The search call `solve` ends in. */
  datatype Plan = Plan(start: GridGraph.Label, fringe: Fringe)

  /**
   * Why `solve` stops without searching: the goal was refused when it was
   * registered, `throw_error` was called with a message, or `float(None)`
   * raised a `TypeError`.
   */
  datatype Failure = InvalidGoal | Error(message: string) | TypeError

  /** The fringe aims every heuristic it carries at `goal`. */
  predicate AimsAt(f: Fringe, goal: GridGraph.Label)
  {
    (f.AStar? || f.BestFirst?) ==> f.heuristic.goal == goal
  }

  /** The algorithm names `solve` dispatches on. */
  const Algorithms: set<string> :=
    {"a-star", "best-first", "uniform-cost", "limited-depth-first", "iterative-deepening"}

  /** The heuristic names `a-star` accepts. */
  const HeuristicNames: set<string> := {"manhattan", "octile"}

  /** The messages `solve` passes to `throw_error`. */
  const Messages: set<string> :=
    {"heuristic is mandatory for a-star", "invalid heuristic", "invalid algorithm"}

  /**
   * Whether the arguments select a fringe: a known algorithm, with a known
   * heuristic for `a-star` and some limit argument for `limited-depth-first`.
   */
  predicate Selects(algorithm: string, heuristic: Option<string>)
  {
    && algorithm in Algorithms
    && (algorithm == "a-star" ==> heuristic.Some? && heuristic.value in HeuristicNames)
    && (algorithm == "limited-depth-first" ==> heuristic.Some?)
  }

  /**
   * `solve` up to the search call. `goalAccepted` is the outcome of
   * `instance.set_goal(goal)`, which runs before anything else.
   */
  function Solve(goalAccepted: bool, algorithm: string, heuristic: Option<string>,
                 start: GridGraph.Label, goal: GridGraph.Label): (r: Result<Plan, Failure>)
    ensures !goalAccepted ==> r == Failure(InvalidGoal)
    ensures r.Success? <==> goalAccepted && Selects(algorithm, heuristic)
    ensures r.Success? ==> r.value.start == start && AimsAt(r.value.fringe, goal)
    ensures r.Failure? && r.error.Error? ==> r.error.message in Messages
    // The fringe each algorithm gets.
    ensures r.Success? && algorithm == "a-star" ==>
      r.value.fringe == if heuristic == Some("manhattan") then AStar(Manhattan(goal)) else AStar(Octile(goal))
    ensures r.Success? && algorithm == "best-first" ==> r.value.fringe == BestFirst(Manhattan(goal))
    ensures r.Success? && algorithm == "uniform-cost" ==> r.value.fringe == UniformCost
    ensures r.Success? && algorithm == "limited-depth-first" ==> r.value.fringe == LimitedDepthFirst(heuristic.value)
    ensures r.Success? && algorithm == "iterative-deepening" ==> r.value.fringe == IterativeDeepening(0)
    // The failure each bad input gets.
    ensures r == Failure(TypeError) <==> goalAccepted && algorithm == "limited-depth-first" && heuristic.None?
    ensures r == Failure(Error("heuristic is mandatory for a-star")) <==>
      goalAccepted && algorithm == "a-star" && heuristic.None?
    ensures r == Failure(Error("invalid heuristic")) <==>
      goalAccepted && algorithm == "a-star" && heuristic.Some? && heuristic.value !in HeuristicNames
    ensures r == Failure(Error("invalid algorithm")) <==> goalAccepted && algorithm !in Algorithms
  {
    if !goalAccepted then
      Failure(InvalidGoal)
    else if algorithm == "a-star" then
      match heuristic
      case None => Failure(Error("heuristic is mandatory for a-star"))
      case Some(h) =>
        if h == "manhattan" then Success(Plan(start, AStar(Manhattan(goal))))
        else if h == "octile" then Success(Plan(start, AStar(Octile(goal))))
        else Failure(Error("invalid heuristic"))
    else if algorithm == "best-first" then
      Success(Plan(start, BestFirst(Manhattan(goal))))
    else if algorithm == "uniform-cost" then
      Success(Plan(start, UniformCost))
    else if algorithm == "limited-depth-first" then
      match heuristic
      case None => Failure(TypeError)
      case Some(text) => Success(Plan(start, LimitedDepthFirst(text)))
    else if algorithm == "iterative-deepening" then
      Success(Plan(start, IterativeDeepening(0)))
    else
      Failure(Error("invalid algorithm"))
  }

  /**
   * `a-star` needs a heuristic argument, and only `manhattan` or `octile`;
   * the name chooses the distance the A* fringe uses.
   */
  lemma AStarErrors(algorithm: string, heuristic: Option<string>, start: GridGraph.Label, goal: GridGraph.Label)
    requires algorithm == "a-star"
    ensures heuristic.None? ==>
      Solve(true, algorithm, heuristic, start, goal) == Failure(Error("heuristic is mandatory for a-star"))
    ensures heuristic.Some? && heuristic.value !in HeuristicNames ==>
      Solve(true, algorithm, heuristic, start, goal) == Failure(Error("invalid heuristic"))
    ensures heuristic == Some("manhattan") ==>
      Solve(true, algorithm, heuristic, start, goal) == Success(Plan(start, AStar(Manhattan(goal))))
    ensures heuristic == Some("octile") ==>
      Solve(true, algorithm, heuristic, start, goal) == Success(Plan(start, AStar(Octile(goal))))
  {
  }

  /**
   * Only `a-star` and `limited-depth-first` look at the heuristic argument:
   * in particular `best-first` always uses the Manhattan distance.
   */
  lemma HeuristicIgnored(goalAccepted: bool, algorithm: string, h1: Option<string>, h2: Option<string>,
                         start: GridGraph.Label, goal: GridGraph.Label)
    requires algorithm != "a-star" && algorithm != "limited-depth-first"
    ensures Solve(goalAccepted, algorithm, h1, start, goal) == Solve(goalAccepted, algorithm, h2, start, goal)
    ensures goalAccepted && algorithm == "best-first" ==>
      Solve(goalAccepted, algorithm, h1, start, goal) == Success(Plan(start, BestFirst(Manhattan(goal))))
  {
  }

  /** A name outside the five known algorithms is refused, once the goal is accepted. */
  lemma UnknownAlgorithm(algorithm: string, heuristic: Option<string>, start: GridGraph.Label, goal: GridGraph.Label)
    requires algorithm !in Algorithms
    ensures Solve(true, algorithm, heuristic, start, goal) == Failure(Error("invalid algorithm"))
  {
  }
}
