/** Trading modes, as the settings row spells them, and what they permit. */
module Modes {
  datatype Mode = Halted | Observe | Shadow | Stage | Paper | LiveLimited | Live | OtherMode(name: string)

  predicate ValidMode(m: Mode) {
    !m.OtherMode?
  }

  predicate CanStage(m: Mode) {
    m.Stage? || m.Paper? || m.LiveLimited? || m.Live?
  }

  predicate CanSubmit(m: Mode) {
    m.Paper? || m.LiveLimited? || m.Live?
  }
}

/** Workflow specifications, and the registry that the bootstrap contracts seed. */
module Workflow {
  import opened Wrappers
  import opened CanonicalJson
  import opened Modes

  datatype Hazard = A | B | C

  datatype ProductType =
    | CommandOutput | RawFilingPackage | XbrlFactSet | CanonicalObservationSet
    | StatementSnapshotSet | FeatureSnapshotSet | ForecastSet | ValuationSet | TargetWeightSet
    | OrderIntentSet | RiskDecisionSet | StagedOrderSet | BrokerEventSet
    | ReconciliationSnapshot | Report
    | OtherType(name: string)

  datatype AlgorithmId =
    | Recon | Plan | Value | Feat | Gate | StageCmd | SendMock | ReportDaily
    | SeedPortfolio | IngestSecPackage | SeedModelObservations | SetMode | Noop
    | OtherAlgorithm(name: string)

  datatype Purity = Pure | DeterministicIo | ExternalWrite
  datatype Executable = RustOperation | NoopTest
  datatype Resource = Sqlite | Filesystem | Broker

  datatype Algorithm = Algorithm(
    hazard: Hazard,
    purity: Purity,
    deterministic: bool,
    kind: Executable,
    inputs: seq<ProductType>,
    outputs: seq<ProductType>,
    resources: seq<Resource>)

  datatype NodeInput = NodeInput(from: string, role: string)
  datatype NodeOutput = NodeOutput(role: string, typ: ProductType)

  datatype Node = Node(
    id: string,
    algorithm: AlgorithmId,
    layer: string,
    cellKey: Json,
    config: Json,
    inputs: seq<NodeInput>,
    outputs: seq<NodeOutput>)

  datatype Layer = Layer(name: string, parent: Option<string>)

  datatype Spec = Spec(
    version: int,
    name: string,
    mode: Mode,
    decisionAsOf: int,
    allowExternalWrite: bool,
    allowBrokerResource: bool,
    layers: seq<Layer>,
    nodes: seq<Node>)

  // ----- The registry

  function Operation(hazard: Hazard, deterministic: bool, inputs: seq<ProductType>, outputs: seq<ProductType>,
                     resources: seq<Resource>): Algorithm
  {
    Algorithm(hazard, DeterministicIo, deterministic, RustOperation, inputs, outputs + [CommandOutput], resources)
  }

  function LoadAlgorithm(id: AlgorithmId): Option<Algorithm> {
    match id
    case Recon => Some(Operation(A, false, [], [ReconciliationSnapshot], [Sqlite]))
    case Plan => Some(Operation(A, true, [ReconciliationSnapshot],
                                [ForecastSet, TargetWeightSet, OrderIntentSet], [Sqlite]))
    case Value => Some(Operation(A, true, [ReconciliationSnapshot],
                                 [StatementSnapshotSet, ValuationSet, TargetWeightSet, OrderIntentSet], [Sqlite]))
    case Feat => Some(Operation(B, true, [StatementSnapshotSet], [FeatureSnapshotSet], [Sqlite]))
    case Gate => Some(Operation(A, true, [OrderIntentSet, ReconciliationSnapshot], [RiskDecisionSet], [Sqlite]))
    case StageCmd => Some(Operation(A, false, [RiskDecisionSet], [StagedOrderSet], [Sqlite]))
    case SendMock => Some(Algorithm(A, ExternalWrite, false, RustOperation,
                                    [StagedOrderSet, ReconciliationSnapshot],
                                    [BrokerEventSet, CommandOutput], [Sqlite, Broker]))
    case ReportDaily => Some(Operation(C, false, [ValuationSet, RiskDecisionSet, FeatureSnapshotSet],
                                       [Report], [Sqlite]))
    case SeedPortfolio => Some(Operation(B, false, [], [], [Sqlite]))
    case IngestSecPackage => Some(Operation(B, false, [CommandOutput],
                                            [RawFilingPackage, XbrlFactSet, CanonicalObservationSet],
                                            [Sqlite, Filesystem]))
    case SeedModelObservations => Some(Operation(B, false, [CanonicalObservationSet],
                                                 [CanonicalObservationSet], [Sqlite, Filesystem]))
    case SetMode => Some(Operation(A, false, [], [], [Sqlite]))
    case Noop => Some(Algorithm(C, Pure, true, NoopTest, [CommandOutput], [CommandOutput], []))
    case OtherAlgorithm(_) => None
  }

  /** The hazard class of a registered product type. */
  function LoadProductType(t: ProductType): Option<Hazard> {
    match t
    case OtherType(_) => None
    case CommandOutput => Some(C)
    case Report => Some(C)
    case RawFilingPackage => Some(B)
    case XbrlFactSet => Some(B)
    case CanonicalObservationSet => Some(B)
    case FeatureSnapshotSet => Some(B)
    case _ => Some(A)
  }

  /** Whether a declared resource admits the mode. */
  predicate ResourceAllows(r: Resource, m: Mode) {
    match r
    case Sqlite => ValidMode(m)
    case Filesystem => ValidMode(m)
    case Broker => CanSubmit(m)
  }

  predicate AuthorityProduct(t: ProductType) {
    t.OrderIntentSet? || t.RiskDecisionSet? || t.StagedOrderSet? || t.BrokerEventSet? || t.ReconciliationSnapshot?
  }

  /** Unicode White_Space, as `char::is_whitespace` and `trim` use it. */
  predicate IsWhitespace(c: char) {
    var n := c as int;
    (9 <= n <= 13) || n == 0x20 || n == 0x85 || n == 0xA0 || n == 0x1680 || (0x2000 <= n <= 0x200A)
    || n == 0x2028 || n == 0x2029 || n == 0x202F || n == 0x205F || n == 0x3000
  }

  predicate Blank(s: string) {
    forall c :: c in s ==> IsWhitespace(c)
  }

  function NodeIds(nodes: seq<Node>): (ids: seq<string>)
    ensures |ids| == |nodes| && forall i :: 0 <= i < |nodes| ==> ids[i] == nodes[i].id
  {
    seq(|nodes|, i requires 0 <= i < |nodes| => nodes[i].id)
  }
}
