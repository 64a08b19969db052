// The command-line check of main.py: the arguments are
// `map x_s y_s x_g y_g algorithm heuristic?` after the program name. The
// check accepts them, or rejects them with the usage line, preceded by an
// error message when there is one.

module Arguments {
  import opened Wrappers
  import Dispatch
  import GridGraph

  /** The outcome of the check; `Rejected(None)` is the bare usage line. */
  datatype Verdict = Accepted | Rejected(error: Option<string>)

  /** The algorithm names accepted without looking at a heuristic. */
  const PlainAlgorithms: set<string> := {"best-fit", "uniform-cost", "iterative-deepening"}

  /**
   * Checks `argv` (program name first). Only the number of arguments, the
   * algorithm and, for `a-star`, the heuristic are looked at.
   */
  function Validate(argv: seq<string>): (r: Verdict)
    ensures |argv| != 7 && |argv| != 8 ==> r == Rejected(None)
    ensures r == Accepted <==>
      && (|argv| == 7 || |argv| == 8)
      && (argv[6] in PlainAlgorithms
          || (argv[6] == "a-star" && |argv| == 8 && argv[7] in Dispatch.HeuristicNames))
    ensures r.Rejected? && r.error.Some? ==> r.error.value in Dispatch.Messages
  {
    if |argv| != 7 && |argv| != 8 then
      Rejected(None)
    else
      var algorithm := argv[6];
      if algorithm == "a-star" then
        if |argv| == 7 then Rejected(Some("heuristic is mandatory for a-star"))
        else if argv[7] !in ["manhattan", "octile"] then Rejected(Some("invalid heuristic"))
        else Accepted
      else if algorithm == "best-fit" then Accepted
      else if algorithm == "uniform-cost" then Accepted
      else if algorithm == "iterative-deepening" then Accepted
      else Rejected(Some("invalid algorithm"))
  }

  /** `a-star` without an eighth argument, or with one that names no known heuristic. */
  lemma AStarRejections(argv: seq<string>)
    requires (|argv| == 7 || |argv| == 8) && argv[6] == "a-star"
    ensures |argv| == 7 ==> Validate(argv) == Rejected(Some("heuristic is mandatory for a-star"))
    ensures |argv| == 8 && argv[7] != "manhattan" && argv[7] != "octile" ==>
      Validate(argv) == Rejected(Some("invalid heuristic"))
  {
  }

  /**
   * Names outside `a-star`, `best-fit`, `uniform-cost` and
   * `iterative-deepening` are refused, `best-first` and
   * `limited-depth-first` among them.
   */
  lemma OtherAlgorithmsRejected(argv: seq<string>)
    requires |argv| == 7 || |argv| == 8
    requires argv[6] != "a-star" && argv[6] !in PlainAlgorithms
    ensures Validate(argv) == Rejected(Some("invalid algorithm"))
  {
  }

  /** The map name and the four coordinates are never looked at. */
  lemma OtherFieldsIgnored(argv: seq<string>, other: seq<string>)
    requires |argv| == |other|
    requires |argv| == 7 || |argv| == 8 ==> argv[6] == other[6]
    requires |argv| == 8 ==> argv[7] == other[7]
    ensures Validate(argv) == Validate(other)
  {
  }

  /** The eighth argument matters only to `a-star`. */
  lemma HeuristicOptional(argv: seq<string>, heuristic: string)
    requires |argv| == 7 && argv[6] in PlainAlgorithms
    ensures Validate(argv) == Accepted && Validate(argv + [heuristic]) == Accepted
  {
  }

  /** The heuristic argument the solver receives: the eighth argument, when present. */
  function HeuristicArgument(argv: seq<string>): (h: Option<string>)
    requires |argv| == 7 || |argv| == 8
  {
    if |argv| == 8 then Some(argv[7]) else None
  }

  /**
   * Arguments this check accepts reach a search in the dispatch of
   * src/main.py, once the goal is accepted, except for `best-fit`: that name
   * is accepted here but the dispatch knows the algorithm as `best-first`,
   * and refuses `best-fit` as an invalid algorithm.
   */
  lemma AcceptedArgumentsDispatch(argv: seq<string>, start: GridGraph.Label, goal: GridGraph.Label)
    requires Validate(argv) == Accepted
    ensures argv[6] != "best-fit" ==> Dispatch.Solve(true, argv[6], HeuristicArgument(argv), start, goal).Success?
    ensures argv[6] == "best-fit" ==>
      Dispatch.Solve(true, argv[6], HeuristicArgument(argv), start, goal) == Failure(Dispatch.Error("invalid algorithm"))
  {
  }
}
