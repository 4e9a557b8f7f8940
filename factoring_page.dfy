/**
 * The Razor page `IndexModel`: it classifies the quantum service's reply,
 * formats both results, derives the bit length of the input and appends
 * one charting record per POST to a history kept in the session.
 */
module FactoringPage {
  import opened Wrappers
  import opened Text
  import opened ClassicalFactor

  const PrimeMessage: string := "The number is prime and cannot be factored."
  const ErrorMessage: string := "An error occurred while processing the request."
  /** The session key the history is stored under. */
  const SessionKey: string := "DataPoints"
  /** `HttpStatusCode.BadRequest`, which the quantum service answers for a prime. */
  const BadRequest: int := 400

  /** `HttpResponseMessage.IsSuccessStatusCode`. */
  predicate IsSuccessStatusCode(status: int)
    ensures IsSuccessStatusCode(status) ==> status != BadRequest
  {
    200 <= status <= 299
  }

  predicate AllInt32(xs: seq<int>) {
    forall i :: 0 <= i < |xs| ==> IsInt32(xs[i])
  }

  /**
   * What the POST to the quantum service gave back: a status code and the
   * integers of the body's `factors` array (`None` when the body has no
   * such array), or `Fault` when the call itself threw.
   */
  datatype Reply = Reply(status: int, factors: Option<seq<int>>) | Fault

  /** The three outcomes the page distinguishes for the quantum path. */
  datatype QuantumOutcome = Prime | Factored(factors: seq<int>) | ServiceError

  /** The classical path's answer as the page handler destructures it. */
  datatype ClassicalReport = ClassicalReport(factors: seq<int>, time: real, isPrime: bool)

  /** `FactoringDataPoint`, one point of the chart. */
  datatype FactoringDataPoint = FactoringDataPoint(
    number: int,
    bits: int,
    qubits: int,
    simulatedQuantumTime: real,
    classicalTime: real,
    theoreticalQuantumTime: real,
    theoreticalClassicalTime: real)

  /** One `(Label, SimulatedQuantumTime, RealQuantumTime, ClassicalTime)` entry of `FactoringResults`. */
  datatype ResultRow = ResultRow(labelText: string, simulatedQuantumTime: real, realQuantumTime: real, classicalTime: real)

  /**
   * How the handler reads a reply: 400 means prime; any other failure
   * status, a missing `factors` array, a factor `GetInt32` cannot read, or
   * a failed call is an error; otherwise the factors are shown.
   */
  function Classify(r: Reply): (o: QuantumOutcome)
    ensures o == Prime <==> r.Reply? && r.status == BadRequest
    ensures o.Factored? <==>
              r.Reply? && IsSuccessStatusCode(r.status) && r.factors.Some? && AllInt32(r.factors.value)
    ensures o.Factored? ==> o.factors == r.factors.value && AllInt32(o.factors)
  {
    match r
    case Fault => ServiceError
    case Reply(status, factors) =>
      if status == BadRequest then Prime
      else if !IsSuccessStatusCode(status) then ServiceError
      else match factors
        case None => ServiceError
        case Some(fs) => if AllInt32(fs) then Factored(fs) else ServiceError
  }

  /** The text put in `QuantumResult`; a factor list is shown so that it reads back as the factors. */
  function QuantumMessage(o: QuantumOutcome): (s: string)
    ensures o.Prime? ==> s == PrimeMessage
    ensures o.ServiceError? ==> s == ErrorMessage
    ensures o.Factored? ==> ParseList(s) == Some(o.factors)
  {
    match o
    case Prime => PrimeMessage
    case ServiceError => ErrorMessage
    case Factored(fs) => FormatListRoundTrip(fs); FormatList(fs)
  }

  /** The text put in `ClassicalResult`. */
  function ClassicalMessage(c: ClassicalReport): (s: string)
    ensures c.isPrime ==> s == PrimeMessage
    ensures !c.isPrime ==> ParseList(s) == Some(c.factors)
  {
    if c.isPrime then PrimeMessage else FormatListRoundTrip(c.factors); FormatList(c.factors)
  }

  /** The page's quantum text tells the three outcomes, and any two factor lists, apart. */
  lemma MessageDeterminesOutcome(a: QuantumOutcome, b: QuantumOutcome)
    requires QuantumMessage(a) == QuantumMessage(b)
    ensures a == b
  {
    if a.Factored? && b.Factored? {
      FormatListInjective(a.factors, b.factors);
    }
  }

  function Pow2(k: nat): (p: nat)
    ensures p >= 1
  {
    if k == 0 then 1 else 2 * Pow2(k - 1)
  }

  lemma {:induction false} Pow2Monotone(i: nat, j: nat)
    requires i <= j
    ensures Pow2(i) <= Pow2(j)
    decreases j
  {
    if i < j {
      Pow2Monotone(i, j - 1);
    }
  }

  /** `floor(log2(n))`, computed on integers. */
  function FloorLog2(n: int): (k: nat)
    requires n >= 1
    ensures Pow2(k) <= n < Pow2(k + 1)
    decreases n
  {
    if n == 1 then 0 else 1 + FloorLog2(n / 2)
  }

  /**
   * `(int)Math.Log2(number) + 1`.  For a positive number it is the number
   * of binary digits.  For 0, `Log2` gives negative infinity, which the
   * cast saturates to `int.MinValue`; for a negative number it gives NaN,
   * which the cast turns into 0 (the conversion rules of .NET 9).
   */
  function BitLength(n: int): (b: int)
    ensures n >= 1 ==> b >= 1 && Pow2(b - 1) <= n < Pow2(b)
    ensures n == 0 ==> b == Int32Min + 1
    ensures n < 0 ==> b == 1
  {
    if n >= 1 then FloorLog2(n) + 1
    else if n == 0 then Int32Min + 1
    else 1
  }

  /** The bit length is the only `b` with `2^(b-1) <= n < 2^b`. */
  lemma BitLengthUnique(n: int, b: int)
    requires n >= 1 && b >= 1 && Pow2(b - 1) <= n < Pow2(b)
    ensures b == BitLength(n)
  {
    var c := BitLength(n);
    if b < c {
      Pow2Monotone(b, c - 1);
    } else if c < b {
      Pow2Monotone(c, b - 1);
    }
  }

  /** A positive C# `int` has between 1 and 31 bits. */
  lemma BitLengthOfInt32(n: int)
    requires IsInt32(n) && n >= 1
    ensures 1 <= BitLength(n) <= 31
  {
    var b := BitLength(n);
    assert Pow2(10) == 0x400;
    assert Pow2(20) == 0x10_0000;
    assert Pow2(31) == 0x8000_0000;
    if b > 31 {
      Pow2Monotone(31, b - 1);
    }
  }

  /** What `GetObject<List<FactoringDataPoint>>(key) ?? new()` yields. */
  function LoadHistory(store: map<string, seq<FactoringDataPoint>>, key: string): seq<FactoringDataPoint> {
    if key in store then store[key] else []
  }

  /**
   * Loading is the inverse of storing: a key reads back what was last
   * stored under it, storing under another key leaves it alone, and an
   * empty session yields an empty history.
   */
  lemma LoadAfterStore(store: map<string, seq<FactoringDataPoint>>, key: string, other: string, v: seq<FactoringDataPoint>)
    ensures LoadHistory(store[key := v], key) == v
    ensures other != key ==> LoadHistory(store[other := v], key) == LoadHistory(store, key)
    ensures LoadHistory(map[], key) == []
  {
  }

  /** The session, as a key-value store of histories; JSON serialisation is taken to be exact. */
  class Session {
    var store: map<string, seq<FactoringDataPoint>>

    constructor ()
      ensures store == map[]
    {
      store := map[];
    }

    /** `SetObject(key, value)`. */
    method SetObject(key: string, value: seq<FactoringDataPoint>)
      modifies this
      ensures store == old(store)[key := value]
      ensures LoadHistory(store, key) == value
    {
      store := store[key := value];
    }
  }

  class IndexModel {
    const session: Session
    var quantumResult: Option<string>
    var quantumTime: real
    var classicalResult: Option<string>
    var classicalTime: real
    var dataPoints: seq<FactoringDataPoint>
    var number: int
    var factoringResults: seq<ResultRow>

    /** A page as the framework creates it: every property at its default. */
    constructor (session: Session)
      ensures this.session == session
      ensures quantumResult == None && quantumTime == 0.0
      ensures classicalResult == None && classicalTime == 0.0
      ensures dataPoints == [] && number == 0 && factoringResults == []
    {
      this.session := session;
      quantumResult, quantumTime := None, 0.0;
      classicalResult, classicalTime := None, 0.0;
      dataPoints, number, factoringResults := [], 0, [];
    }

    /** `OnGet`: the history stored in the session, or an empty one. */
    method OnGet()
      modifies this`dataPoints
      ensures dataPoints == LoadHistory(session.store, SessionKey)
    {
      if SessionKey in session.store {
        dataPoints := session.store[SessionKey];
      } else {
        dataPoints := [];
      }
    }

    /**
     * `OnPostAsync(number)` with the quantum call replaced by its reply and
     * its measured time, and the classical call by its report.
     */
    method OnPost(number: int, reply: Reply, quantumElapsed: real, classical: ClassicalReport)
      requires IsInt32(number)
      modifies this, session
      ensures quantumResult == Some(QuantumMessage(Classify(reply)))
      ensures quantumTime == if Classify(reply).ServiceError? then old(quantumTime) else quantumElapsed
      ensures classicalTime == classical.time
      ensures classicalResult == Some(ClassicalMessage(classical))
      ensures factoringResults ==
                old(factoringResults) + [ResultRow(IntToString(number), quantumTime, quantumTime, classicalTime)]
      ensures dataPoints ==
                old(dataPoints) + [FactoringDataPoint(0, BitLength(number), 0, quantumTime, classicalTime, 0.0, 0.0)]
      ensures 1 <= BitLength(number) <= 31 || number <= 0
      ensures session.store == old(session.store)[SessionKey := dataPoints]
      ensures this.number == old(this.number)
    {
      // The quantum service.
      if reply.Reply? && reply.status == BadRequest {
        quantumResult := Some(PrimeMessage);
        quantumTime := quantumElapsed;
      } else if reply.Fault? || !IsSuccessStatusCode(reply.status) {
        quantumResult := Some(ErrorMessage);
      } else if reply.factors.None? || !AllInt32(reply.factors.value) {
        quantumResult := Some(ErrorMessage);
      } else {
        quantumResult := Some(FormatList(reply.factors.value));
        quantumTime := quantumElapsed;
      }

      // The classical factorizer.
      classicalTime := classical.time;
      if classical.isPrime {
        classicalResult := Some(PrimeMessage);
      } else {
        classicalResult := Some(FormatList(classical.factors));
      }

      factoringResults := factoringResults + [ResultRow(IntToString(number), quantumTime, quantumTime, classicalTime)];
      var bits := BitLength(number);
      if number >= 1 {
        BitLengthOfInt32(number);
      }
      dataPoints := dataPoints + [FactoringDataPoint(0, bits, 0, quantumTime, classicalTime, 0.0, 0.0)];
      session.SetObject(SessionKey, dataPoints);
    }
  }

  /**
   * One POST on a new page followed by a GET on another new page over the
   * same session: the GET shows exactly the one point the POST stored.
   */
  method PostThenGet(session: Session, number: int, reply: Reply, quantumElapsed: real, classical: ClassicalReport)
    returns (posted: IndexModel, loaded: IndexModel)
    requires IsInt32(number)
    modifies session
    ensures fresh(posted) && fresh(loaded)
    ensures |posted.dataPoints| == 1 && posted.dataPoints[0].bits == BitLength(number)
    ensures loaded.dataPoints == posted.dataPoints
  {
    posted := new IndexModel(session);
    posted.OnPost(number, reply, quantumElapsed, classical);
    loaded := new IndexModel(session);
    loaded.OnGet();
  }
}
