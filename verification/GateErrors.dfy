// The errors of a gate: the problems of either side under its label, and what the gate
// itself finds.
module GateErrors {
  datatype Side = Baseline | Candidate
  datatype GateError<P, F> = In(side: Side, problem: P) | Raised(finding: F)

  function Labelled<P, F>(side: Side, problems: seq<P>): (r: seq<GateError<P, F>>)
    ensures |r| == |problems|
  {
    seq(|problems|, i requires 0 <= i < |problems| => In(side, problems[i]))
  }
}
