/** Readings and statuses shared by the signal and NAV modules. Prices and confidences are 18-decimal
    and non-negative. */
module OracleTypes {
  datatype MarketStatus = PreMarket | Regular | PostMarket | Overnight | Closed | Unknown

  datatype OracleSource = Chainlink | Pyth | RedStone | DexTwap | PerpMark | LastClose

  /** The sources weaker than one. */
  function Weaker(s: OracleSource): set<OracleSource> {
    match s
    case Chainlink => {Pyth, RedStone, DexTwap, PerpMark, LastClose}
    case Pyth => {RedStone, DexTwap, PerpMark, LastClose}
    case RedStone => {DexTwap, PerpMark, LastClose}
    case DexTwap => {PerpMark, LastClose}
    case PerpMark => {LastClose}
    case LastClose => {}
  }

  datatype OracleReading = OracleReading(price: nat, confidence: nat, timestamp: int,
                                         marketStatus: MarketStatus, source: OracleSource)
}
