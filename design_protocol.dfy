/**
 * The design protocol's complexity gate: a design solution is accepted only when
 * the complexity class it declares is O(log n).
 */
module DesignProtocol {
  import opened Results

  /** Declared complexity classes; only `LogN` passes the gate. */
  datatype Complexity = Constant | LogN | Linear | Polynomial | Exponential

  /** The gate's error: what was expected and what the solution declared. */
  datatype ComplexityViolation = Expected(expected: Complexity, actual: Complexity)

  /**
   * `DesignSolution::validate_complexity` on a solution `solution` whose
   * `complexity()` accessor is `complexity`.
   */
  function ValidateComplexity<S>(solution: S, complexity: S -> Complexity): (r: Result<(), ComplexityViolation>)
    ensures r.Ok? <==> complexity(solution) == LogN
    ensures r.Err? ==> r.error.expected == LogN
    ensures r.Err? ==> r.error.actual == complexity(solution) && r.error.actual != LogN
  {
    match complexity(solution)
    case LogN => Ok(())
    case other => Err(Expected(LogN, other))
  }

  /** Every class other than `LogN` is refused, naming `LogN` as expected and itself as actual. */
  lemma RejectsEveryOtherClass<S>(solution: S, complexity: S -> Complexity, c: Complexity)
    requires complexity(solution) == c && c != LogN
    ensures ValidateComplexity(solution, complexity) == Err(Expected(LogN, c))
  {
  }

  /** The verdict depends on the declared class alone, not on the rest of the solution. */
  lemma DeterminedByDeclaredClass<S, S'>(s1: S, complexity1: S -> Complexity, s2: S', complexity2: S' -> Complexity)
    requires complexity1(s1) == complexity2(s2)
    ensures ValidateComplexity(s1, complexity1) == ValidateComplexity(s2, complexity2)
  {
  }
}
