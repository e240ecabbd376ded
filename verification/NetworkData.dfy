/** The imported network and the findings about it (io/import_types.h). */
module NetworkData {

  datatype Severity = Info | Warning | Error | Fatal

  /** The finding codes of the validator; `Foreign` stands for the codes of importers. */
  datatype Code =
    | NoBuses | MissingFromBus | MissingToBus | MissingXfmrBus | MissingGenBus | MissingLoadBus | MissingShuntBus
    | Disconnected | MultipleIslands | IsolatedBus
    | DupBusId | ZeroBaseKv | NegRate | InvalidStatus
    | ZeroImpedance | NegResistance | LargeReactance | ZeroWindV | ZeroRating
    | InvalidPLimits | InvalidQLimits | InvalidVSet
    | SelfLoop | DupCircuitId | DupWinding | ZeroTertV
    | NoImporter | Cancelled | Foreign(name: string)

  datatype ImportError = ImportError(severity: Severity, code: Code)

  datatype Bus = Bus(id: int, baseVoltage: real)

  datatype Branch = Branch(fromBus: int, toBus: int, circuitId: string, r: real, x: real, rateA: real, status: int)

  datatype Transformer = Transformer(
    fromBus: int, toBus: int, tertBus: int, status: int, rateA: real, windV1: real, windV2: real, windV3: real)

  datatype Generator = Generator(
    busId: int, pMax: real, pMin: real, qMax: real, qMin: real, vSet: real, status: int)

  datatype Load = Load(busId: int)

  datatype Shunt = Shunt(busId: int)

  datatype PowerSystemData = PowerSystemData(
    buses: seq<Bus>, branches: seq<Branch>, transformers: seq<Transformer>,
    generators: seq<Generator>, loads: seq<Load>, shunts: seq<Shunt>)
}
