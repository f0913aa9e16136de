/**
 * The implementation layer's design check: complexity, then phenomemory tokens,
 * then HDIS topology, each stage's failure returned by `?` before the next runs.
 */
module ImplementationLayer {
  import opened Results
  import opened DesignProtocol

  /** `ValidationError`: each stage's own error, as `?` converts it. */
  datatype ValidationError<QErr, TErr> =
    | ComplexityFailed(violation: ComplexityViolation)
    | TokensRejected(qaError: QErr)
    | TopologyFailed(topologyError: TErr)

  /**
   * An `Implementation`, seen through the accessors `validate_design_layer` calls:
   * the solution and its `complexity()`, what `load_pheno_tests()` returns, the QA
   * matrix's `validate_tokens`, and what `verify_hdis()` returns.
   */
  datatype Implementation<!S, !Tok, QErr, TErr> = Implementation(
    solution: S,
    complexity: S -> Complexity,
    phenoTests: Tok,
    validateTokens: Tok -> Result<(), QErr>,
    hdis: Result<(), TErr>)

  /** The calls the validator makes, in the order it makes them. */
  datatype Call<Tok> =
    | ValidatedComplexity
    | LoadedPhenoTests
    | ValidatedTokens(tokens: Tok)
    | VerifiedHdis

  /** What one validation returns, and the calls it made on the way. */
  datatype Validation<Tok, QErr, TErr> = Validation(result: Result<(), ValidationError<QErr, TErr>>, calls: seq<Call<Tok>>)

  /** The outcome of each stage on its own, as the error `?` would return. */
  function ComplexityStage<S, Tok, QErr, TErr>(impl: Implementation<S, Tok, QErr, TErr>): Result<(), ValidationError<QErr, TErr>> {
    match ValidateComplexity(impl.solution, impl.complexity)
    case Ok(_) => Ok(())
    case Err(v) => Err(ComplexityFailed(v))
  }

  function TokenStage<S, Tok, QErr, TErr>(impl: Implementation<S, Tok, QErr, TErr>): Result<(), ValidationError<QErr, TErr>> {
    match impl.validateTokens(impl.phenoTests)
    case Ok(_) => Ok(())
    case Err(e) => Err(TokensRejected(e))
  }

  function HdisStage<S, Tok, QErr, TErr>(impl: Implementation<S, Tok, QErr, TErr>): Result<(), ValidationError<QErr, TErr>> {
    match impl.hdis
    case Ok(_) => Ok(())
    case Err(e) => Err(TopologyFailed(e))
  }

  /** Fail-fast sequencing in general: the first failing outcome, or `Ok(())` when none fails. */
  function FirstFailure<E>(outcomes: seq<Result<(), E>>): Result<(), E>
    decreases |outcomes|
  {
    if outcomes == [] then Ok(())
    else if outcomes[0].Err? then outcomes[0]
    else FirstFailure(outcomes[1..])
  }

  lemma {:induction false} FirstFailureOkIffAllOk<E>(outcomes: seq<Result<(), E>>)
    ensures FirstFailure(outcomes).Ok? <==> forall i :: 0 <= i < |outcomes| ==> outcomes[i].Ok?
    decreases |outcomes|
  {
    if outcomes != [] && outcomes[0].Ok? {
      FirstFailureOkIffAllOk(outcomes[1..]);
      assert forall i :: 1 <= i < |outcomes| ==> outcomes[i] == outcomes[1..][i - 1];
    }
  }

  lemma {:induction false} FirstFailureIsEarliest<E>(outcomes: seq<Result<(), E>>, i: nat)
    requires i < |outcomes| && outcomes[i].Err?
    requires forall j :: 0 <= j < i ==> outcomes[j].Ok?
    ensures FirstFailure(outcomes) == outcomes[i]
    decreases i
  {
    if i > 0 {
      FirstFailureIsEarliest(outcomes[1..], i - 1);
    }
  }

  /** Fail-fast over three stages, unfolded. */
  lemma FirstFailureOfThree<E>(a: Result<(), E>, b: Result<(), E>, c: Result<(), E>)
    ensures FirstFailure([a, b, c]) == if a.Err? then a else if b.Err? then b else if c.Err? then c else Ok(())
  {
    assert [a, b, c][1..] == [b, c];
    assert [b, c][1..] == [c];
    assert [c][1..] == [];
    assert FirstFailure([c]) == if c.Err? then c else Ok(());
  }

  /** The full call sequence of a validation that reaches the HDIS stage. */
  function AllCalls<Tok>(tokens: Tok): seq<Call<Tok>> {
    [ValidatedComplexity, LoadedPhenoTests, ValidatedTokens(tokens), VerifiedHdis]
  }

  /**
   * `Implementation::validate_design_layer`: the result is that of the earliest
   * failing stage in the order complexity, tokens, HDIS, or `Ok(())` when all pass,
   * and the calls made are a prefix of the full sequence.
   */
  function ValidateDesignLayer<S, Tok, QErr, TErr>(impl: Implementation<S, Tok, QErr, TErr>): (v: Validation<Tok, QErr, TErr>)
    ensures v.result == FirstFailure([ComplexityStage(impl), TokenStage(impl), HdisStage(impl)])
    ensures v.result.Ok? <==> ComplexityStage(impl).Ok? && TokenStage(impl).Ok? && HdisStage(impl).Ok?
    ensures v.calls <= AllCalls(impl.phenoTests) && |v.calls| >= 1
  {
    FirstFailureOfThree(ComplexityStage(impl), TokenStage(impl), HdisStage(impl));
    var calls := [ValidatedComplexity];
    match ValidateComplexity(impl.solution, impl.complexity)
    case Err(violation) => Validation(Err(ComplexityFailed(violation)), calls)
    case Ok(_) =>
      var tokens := impl.phenoTests;
      var calls := calls + [LoadedPhenoTests, ValidatedTokens(tokens)];
      match impl.validateTokens(tokens)
      case Err(e) => Validation(Err(TokensRejected(e)), calls)
      case Ok(_) =>
        var calls := calls + [VerifiedHdis];
        match impl.hdis
        case Err(e) => Validation(Err(TopologyFailed(e)), calls)
        case Ok(_) => Validation(Ok(()), calls)
  }

  /** A complexity failure is returned as is; nothing is loaded, validated or verified after it. */
  lemma ComplexityFailureShortCircuits<S, Tok, QErr, TErr>(impl: Implementation<S, Tok, QErr, TErr>)
    requires impl.complexity(impl.solution) != LogN
    ensures ValidateDesignLayer(impl).result == Err(ComplexityFailed(Expected(LogN, impl.complexity(impl.solution))))
    ensures ValidateDesignLayer(impl).calls == [ValidatedComplexity]
  {
  }

  /** The tokens are loaded once, only after the complexity check passed, and handed on unchanged. */
  lemma PhenoTestsLoadedOnceAfterComplexity<S, Tok, QErr, TErr>(impl: Implementation<S, Tok, QErr, TErr>)
    ensures var v := ValidateDesignLayer(impl);
      multiset(v.calls)[LoadedPhenoTests] == if impl.complexity(impl.solution) == LogN then 1 else 0
    ensures var v := ValidateDesignLayer(impl);
      impl.complexity(impl.solution) == LogN ==>
        v.calls[..3] == [ValidatedComplexity, LoadedPhenoTests, ValidatedTokens(impl.phenoTests)]
  {
  }

  /** A token failure is returned as is, and the HDIS topology is not verified. */
  lemma TokenFailureSkipsHdis<S, Tok, QErr, TErr>(impl: Implementation<S, Tok, QErr, TErr>)
    requires impl.complexity(impl.solution) == LogN
    requires impl.validateTokens(impl.phenoTests).Err?
    ensures ValidateDesignLayer(impl).result == Err(TokensRejected(impl.validateTokens(impl.phenoTests).error))
    ensures VerifiedHdis !in ValidateDesignLayer(impl).calls
  {
  }

  /** HDIS is verified exactly when both earlier stages passed, and then its outcome is the result. */
  lemma HdisOnlyAfterBothPass<S, Tok, QErr, TErr>(impl: Implementation<S, Tok, QErr, TErr>)
    ensures VerifiedHdis in ValidateDesignLayer(impl).calls <==> ComplexityStage(impl).Ok? && TokenStage(impl).Ok?
    ensures ComplexityStage(impl).Ok? && TokenStage(impl).Ok? ==> ValidateDesignLayer(impl).result == HdisStage(impl)
  {
  }
}
