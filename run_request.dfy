/**
 * The validation part of `handleRunClick` (App.jsx): the five configuration
 * fields are read in a fixed order, then the edge text, and the payload for
 * the solver is built only when all of them are accepted.
 */
module RunRequest {
  import opened Wrappers
  import opened FieldParser
  import opened Indexing
  import opened EdgeParser

  /** The five configuration inputs of the form, as typed. */
  datatype ConfigForm = ConfigForm(
    vertexCount: string,
    populationSize: string,
    maxGenerations: string,
    crossoverRate: string,
    mutationRate: string)

  /** The `config` part of the payload. */
  datatype GaConfig = GaConfig(populationSize: int, crossoverRate: real, mutationRate: real, maxGenerations: int)

  /** The `graph` part of the payload: edges are zero-based. */
  datatype Graph = Graph(vertexCount: int, edges: seq<Edge>)

  datatype Payload = Payload(config: GaConfig, graph: Graph)

  /** What is shown instead of running: a field's error, or the edge text's error. */
  datatype RunError = InvalidField(fieldError: FieldError) | InvalidEdges(edgeError: EdgeError)

  /** The labels the field errors carry. */
  const VertexCountLabel: string := "Số đỉnh (vertexCount)"
  const PopulationSizeLabel: string := "Population size"
  const MaxGenerationsLabel: string := "Max generations"
  const CrossoverRateLabel: string := "Crossover rate"
  const MutationRateLabel: string := "Mutation rate"

  /** `{ integer: true, min: 1 }` for the counts, `{ min: 0, max: 1 }` for the rates. */
  const CountOptions: NumberOptions := NumberOptions(true, Some(1.0), None)
  const RateOptions: NumberOptions := NumberOptions(false, Some(0.0), Some(1.0))

  /** A payload the solver can run on: counts of at least one, rates in [0, 1], at least one edge,
      and every edge between vertices of the graph. */
  predicate ValidPayload(p: Payload) {
    && p.graph.vertexCount >= 1
    && p.config.populationSize >= 1
    && p.config.maxGenerations >= 1
    && 0.0 <= p.config.crossoverRate <= 1.0
    && 0.0 <= p.config.mutationRate <= 1.0
    && |p.graph.edges| >= 1
    && EdgesInRange(p.graph.edges, p.graph.vertexCount)
  }

  /** A field's outcome, its thrown error caught as the run's error. */
  function Caught(outcome: Result<real, FieldError>): Result<real, RunError> {
    match outcome
    case Ok(x) => Ok(x)
    case Err(e) => Err(InvalidField(e))
  }

  /** The edge text read with `parseEdgesForBackend`, its error returned as the run's error. */
  function ReadEdges(text: string, vCount: int, mode: Mode): Result<seq<Edge>, RunError> {
    match ParseEdges(text, vCount, mode)
    case Ok(edges) => Ok(edges)
    case Err(e) => Err(InvalidEdges(e))
  }

  /** The early exits of `handleRunClick`, given the outcome of each field in the order they are read:
      the first failed field is the error, then the edge text is read with the vertex count. */
  function Assemble(
    vertexCount: Result<real, FieldError>, populationSize: Result<real, FieldError>,
    maxGenerations: Result<real, FieldError>, crossoverRate: Result<real, FieldError>,
    mutationRate: Result<real, FieldError>, edgesInput: string, mode: Mode): (r: Result<Payload, RunError>)
    requires vertexCount.Ok? ==> IsInteger(vertexCount.value)
    requires populationSize.Ok? ==> IsInteger(populationSize.value)
    requires maxGenerations.Ok? ==> IsInteger(maxGenerations.value)
    ensures r.Ok? ==>
              && vertexCount == Ok(r.value.graph.vertexCount as real)
              && populationSize == Ok(r.value.config.populationSize as real)
              && maxGenerations == Ok(r.value.config.maxGenerations as real)
              && crossoverRate == Ok(r.value.config.crossoverRate)
              && mutationRate == Ok(r.value.config.mutationRate)
              && ParseEdges(edgesInput, r.value.graph.vertexCount, mode) == Ok(r.value.graph.edges)
  {
    var vCountNum :- Caught(vertexCount);
    var popSize :- Caught(populationSize);
    var maxGen :- Caught(maxGenerations);
    var cross :- Caught(crossoverRate);
    var mut :- Caught(mutationRate);
    var edges :- ReadEdges(edgesInput, vCountNum.Floor, mode);
    Ok(Payload(GaConfig(popSize.Floor, cross, mut, maxGen.Floor), Graph(vCountNum.Floor, edges)))
  }

  /** Steps 1 to 3 of `handleRunClick`: the payload it would send, or the error it would show. */
  function BuildRunRequest(form: ConfigForm, edgesInput: string, mode: Mode): (r: Result<Payload, RunError>)
    ensures r.Ok? ==> ValidPayload(r.value)
    ensures r.Ok? ==>
              && ParseNumber(form.vertexCount, VertexCountLabel, CountOptions) == Ok(r.value.graph.vertexCount as real)
              && ParseNumber(form.populationSize, PopulationSizeLabel, CountOptions) == Ok(r.value.config.populationSize as real)
              && ParseNumber(form.maxGenerations, MaxGenerationsLabel, CountOptions) == Ok(r.value.config.maxGenerations as real)
              && ParseNumber(form.crossoverRate, CrossoverRateLabel, RateOptions) == Ok(r.value.config.crossoverRate)
              && ParseNumber(form.mutationRate, MutationRateLabel, RateOptions) == Ok(r.value.config.mutationRate)
              && ParseEdges(edgesInput, r.value.graph.vertexCount, mode) == Ok(r.value.graph.edges)
  {
    var vertexCount := ParseNumber(form.vertexCount, VertexCountLabel, CountOptions);
    var populationSize := ParseNumber(form.populationSize, PopulationSizeLabel, CountOptions);
    var maxGenerations := ParseNumber(form.maxGenerations, MaxGenerationsLabel, CountOptions);
    var crossoverRate := ParseNumber(form.crossoverRate, CrossoverRateLabel, RateOptions);
    var mutationRate := ParseNumber(form.mutationRate, MutationRateLabel, RateOptions);
    AssembledPayloadValid(vertexCount, populationSize, maxGenerations, crossoverRate, mutationRate, edgesInput, mode);
    Assemble(vertexCount, populationSize, maxGenerations, crossoverRate, mutationRate, edgesInput, mode)
  }

  /** Fields that meet their options and an accepted edge text make a payload the solver can run on. */
  lemma {:induction false} AssembledPayloadValid(
    vertexCount: Result<real, FieldError>, populationSize: Result<real, FieldError>,
    maxGenerations: Result<real, FieldError>, crossoverRate: Result<real, FieldError>,
    mutationRate: Result<real, FieldError>, edgesInput: string, mode: Mode)
    requires vertexCount.Ok? ==> Satisfies(vertexCount.value, CountOptions)
    requires populationSize.Ok? ==> Satisfies(populationSize.value, CountOptions)
    requires maxGenerations.Ok? ==> Satisfies(maxGenerations.value, CountOptions)
    requires crossoverRate.Ok? ==> Satisfies(crossoverRate.value, RateOptions)
    requires mutationRate.Ok? ==> Satisfies(mutationRate.value, RateOptions)
    ensures Assemble(vertexCount, populationSize, maxGenerations, crossoverRate, mutationRate, edgesInput, mode).Ok? ==>
              ValidPayload(Assemble(vertexCount, populationSize, maxGenerations, crossoverRate, mutationRate, edgesInput, mode).value)
  {
    var r := Assemble(vertexCount, populationSize, maxGenerations, crossoverRate, mutationRate, edgesInput, mode);
    if r.Ok? {
      ParseEdgesAccepted(edgesInput, r.value.graph.vertexCount, mode);
    }
  }

  /** The fields are checked in order and the first that fails is the error shown, whatever the later
      fields and the edge text hold; the edge text is read only when all five are accepted, with the
      parsed vertex count, and its error is then the error shown. */
  lemma {:induction false} FirstFailureReported(
    vertexCount: Result<real, FieldError>, populationSize: Result<real, FieldError>,
    maxGenerations: Result<real, FieldError>, crossoverRate: Result<real, FieldError>,
    mutationRate: Result<real, FieldError>, edgesInput: string, mode: Mode)
    requires vertexCount.Ok? ==> IsInteger(vertexCount.value)
    requires populationSize.Ok? ==> IsInteger(populationSize.value)
    requires maxGenerations.Ok? ==> IsInteger(maxGenerations.value)
    ensures vertexCount.Err? ==>
              Assemble(vertexCount, populationSize, maxGenerations, crossoverRate, mutationRate, edgesInput, mode)
                == Err(InvalidField(vertexCount.error))
    ensures vertexCount.Ok? && populationSize.Err? ==>
              Assemble(vertexCount, populationSize, maxGenerations, crossoverRate, mutationRate, edgesInput, mode)
                == Err(InvalidField(populationSize.error))
    ensures vertexCount.Ok? && populationSize.Ok? && maxGenerations.Err? ==>
              Assemble(vertexCount, populationSize, maxGenerations, crossoverRate, mutationRate, edgesInput, mode)
                == Err(InvalidField(maxGenerations.error))
    ensures vertexCount.Ok? && populationSize.Ok? && maxGenerations.Ok? && crossoverRate.Err? ==>
              Assemble(vertexCount, populationSize, maxGenerations, crossoverRate, mutationRate, edgesInput, mode)
                == Err(InvalidField(crossoverRate.error))
    ensures vertexCount.Ok? && populationSize.Ok? && maxGenerations.Ok? && crossoverRate.Ok? && mutationRate.Err? ==>
              Assemble(vertexCount, populationSize, maxGenerations, crossoverRate, mutationRate, edgesInput, mode)
                == Err(InvalidField(mutationRate.error))
    ensures vertexCount.Ok? && populationSize.Ok? && maxGenerations.Ok? && crossoverRate.Ok? && mutationRate.Ok? ==>
              && (Assemble(vertexCount, populationSize, maxGenerations, crossoverRate, mutationRate, edgesInput, mode).Ok? <==>
                    ParseEdges(edgesInput, vertexCount.value.Floor, mode).Ok?)
              && (ParseEdges(edgesInput, vertexCount.value.Floor, mode).Err? ==>
                    Assemble(vertexCount, populationSize, maxGenerations, crossoverRate, mutationRate, edgesInput, mode)
                      == Err(InvalidEdges(ParseEdges(edgesInput, vertexCount.value.Floor, mode).error)))
  {
  }
}
