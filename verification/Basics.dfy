/** Shared vocabulary: optional values, refusals, directions, instruments. */
module Basics {

  datatype Option<+T> = None | Some(value: T)

  datatype Direction = Up | Down

  datatype Instrument = Shares | CallOption | PutOption

  /** Why a desk tool turned the model's input down. */
  datatype Refusal =
    | BookNotStarted | BadPrice | BadBenchmark | BadHorizon | BadLevels | LevelTooFar
    | NotTradeable | CallsUsedUp | StillOpen | PitchNotOpen | PitchMismatch
    | Blind | ReadFailed | NoQuote | StaleQuote
    | LowConviction | NoSizeRule | SharesNeedUp | NeedMaxEntry | Chase | NoAtr | AtrCeiling
    | InvalidationAboveEntry | BuysNothing | DivisionByZero
    | WrongInstrument | NeedOptionSymbol | ChainFailed | NotACandidate
    | TooManyPositions | BreaksReserve | OverSingleName | OverOptionSize | OverOpenPremium | OverCluster
    | StopAboveFill
    | LegacyFunding | NotInAccount | NoSuchCall | AlreadyExtended | NotAtHorizon | NotHeld
    | LegacyStop | AlreadyResolved | NotTighter | NothingHeld

  datatype Result<+T> = Ok(value: T) | Refused(why: Refusal) {
    predicate IsFailure() { Refused? }
    function PropagateFailure<U>(): Result<U> requires Refused? { Refused(why) }
    function Extract(): T requires Ok? { value }
  }

  function Max(a: real, b: real): real { if a >= b then a else b }

  function Min(a: real, b: real): real { if a <= b then a else b }

  function Abs(a: real): real { if a < 0.0 then -a else a }
}
