# Quantum factoring demo: verified model of the classical factorizer and the page handler

The demo compares a naive classical factorizer against a simulated quantum
factoring service and charts the timings. Its only real logic sits in two places:

- `ClassicalFactor.Factor` does trial division. It returns 2 for an even number.
  Otherwise it returns the first odd `i >= 3` with `i <= sqrt(number)` that divides
  the number. If there is none it returns `null`.
- `IndexModel.OnPostAsync` is the Razor page handler. It classifies the quantum
  service's reply, formats both results as text and computes the input's bit length.
  It then appends one record to each of `FactoringResults` and `DataPoints`, and
  stores `DataPoints` in the session. `OnGet` reads the history back from the session.

The model has four modules:

- `Wrappers`: the `Option` type used for C#'s nullable values.
- `ClassicalFactor`: `Factor` as a method with a `while` loop. Its loop invariant says
  no number between 2 and the counter divides the input. It is proved to return the
  smallest divisor, and to return nothing for an odd input of at least 3 exactly when
  that input is prime.
- `Text`: `Int32.ToString()`, `string.Join` and the `"(a, b, ...)"` form of a list.
  A separate parser is proved to read that text back, so the page's text determines
  the numbers it shows.
- `FactoringPage`: the reply classification, the two result messages and the bit
  length as pure functions, plus `Session` and `IndexModel` as classes. `IndexModel`
  has `seq` fields, and `OnGet` and `OnPost` state exactly what they change.

Modelling choices:

- C#'s `int` is `int` with the precondition `IsInt32`. The loop guard
  `i <= Math.Sqrt(number)` is written `i * i <= number`. The two agree on the 32-bit
  range, because a correctly rounded square root never moves across an integer there.
  For a negative number the square root is NaN, the source's loop does not run, and
  `i * i <= number` is also false. The loop counter is proved to stay at or below
  46342, so `i += 2` never overflows.
- `Math.Log2` becomes the integer `FloorLog2`. For `number <= 0` the model follows
  .NET 9's saturating conversion: `(int)(-infinity)` is `int.MinValue` and `(int)NaN`
  is 0. In that case the recorded bit length is `int.MinValue + 1` for 0 and 1 for a
  negative number. Older .NET runtimes on x86/x64 also turn NaN into `int.MinValue`.
- The quantum reply is the datatype `Reply`. It is either a status code with the
  integers of the body's `factors` array, or `Fault` when the HTTP call threw. A
  `factors` array is `None` when the body has no such array. A factor outside the
  `int` range makes `GetInt32` throw, so such a reply is an error.
- Elapsed times are opaque `real` inputs: `quantumElapsed`, and `ClassicalReport.time`.
- Numbers are printed with `-` as the minus sign, as in the invariant culture.

Behaviour of the code that the model keeps, though a reader might expect otherwise:

- `Factor` returns a single divisor, the smallest one, or nothing. It never returns
  the full list of prime factors.
- The handler destructures `(factors, time, isPrime)`, which `Factor` does not return.
  The page therefore takes an abstract `ClassicalReport` with a factor list, a time and
  an `isPrime` flag.
- Every quantum-service error is shown with one fixed message. The message the service
  sends back is never displayed.
- The bit length is `floor(log2(n)) + 1`, the number of binary digits of `n`.
- `Qubits`, `Number` and both theoretical times of a data point keep their default of 0.
- Inputs `<= 1` are not rejected. `Factor(1)` and `Factor` of a negative odd number
  return nothing, and `Factor(0)` returns 2.

## Model

| member | source | states |
|---|---|---|
| `ClassicalFactor.Factor` | RazorApp/Services/ClassicalFactor.cs:3-13 | An even input gives 2. A result always divides the input, and no smaller number from 2 up divides it. For an odd input, a result is odd, at least 3, and its square is at most the input. An odd input below 9 gives nothing. For an odd input of at least 3, nothing is returned exactly when the input is prime. |
| `ClassicalFactor.CounterBounds` | RazorApp/Services/ClassicalFactor.cs:7 | A candidate `i >= 3` that passes the guard `i*i <= number` on an `int` is at most the number and at most 46340, so `i += 2` cannot overflow and the loop terminates. |
| `ClassicalFactor.NoSmallDivisorMeansPrime` | RazorApp/Services/ClassicalFactor.cs:7-12 | If the loop stops at `i` with `i*i > n` and no number in `[2, i)` divides `n`, then `n` is prime. This is why a `null` result means prime. |
| `ClassicalFactor.SmallDivisorMeansComposite` | RazorApp/Services/ClassicalFactor.cs:9-10 | A divisor `i >= 2` with `i*i <= n` shows that `n` is not prime. |
| `ClassicalFactor.CompositeHasSmallDivisor` | RazorApp/Services/ClassicalFactor.cs:7 | Every composite `n` has a divisor `d >= 2` with `d*d <= n`, so the search can stop at the square root. |
| `ClassicalFactor.OddHasNoEvenDivisor` | RazorApp/Services/ClassicalFactor.cs:6-7 | An odd number has no even divisor, so after the parity test only odd candidates need trying. |
| `Text.IntToString` | RazorApp/Pages/Index.cshtml.cs:115 | The text of `number.ToString()` is non-empty. It starts with `-` exactly when the number is negative, and every other character is a digit. That the text reads back as the number is `Text.IntToStringRoundTrip`. |
| `Text.Join` | RazorApp/Pages/Index.cshtml.cs:91 | `string.Join` of no parts is the empty string, and otherwise the result starts with the first part. That a joined list of numbers reads back as that list is `Text.ParseItemsOfJoin`. |
| `Text.FormatList` | RazorApp/Pages/Index.cshtml.cs:111 | The text `$"({string.Join(", ", xs)})"` is at least two characters long, starts with `(` and ends with `)`. That it reads back as exactly `xs` is `Text.FormatListRoundTrip`. |
| `Text.NatToString` | RazorApp/Pages/Index.cshtml.cs:115 | The decimal text of a natural number is non-empty, all digits, and has no leading zero unless the number is 0. |
| `Text.IntToStringRoundTrip` | RazorApp/Pages/Index.cshtml.cs:115 | The label `number.ToString()` reads back as the number, using all of its characters. |
| `Text.ScanIntToString` | RazorApp/Pages/Index.cshtml.cs:91 | A number's text followed by a non-digit reads back as that number and stops at the non-digit. |
| `Text.ParseItemsOfJoin` | RazorApp/Pages/Index.cshtml.cs:91 | `string.Join(", ", xs)` of a non-empty list of integers reads back as `xs`. |
| `Text.FormatListRoundTrip` | RazorApp/Pages/Index.cshtml.cs:91 | The text `"(" + Join(", ", xs) + ")"` reads back as exactly `xs`, including the empty list `"()"`. |
| `Text.FormatListInjective` | RazorApp/Pages/Index.cshtml.cs:111 | Two different factor lists are never shown as the same text. |
| `FactoringPage.IsSuccessStatusCode` | RazorApp/Pages/Index.cshtml.cs:81 | `response.IsSuccessStatusCode` is a status from 200 to 299. A success status is never 400, so testing 400 first does not hide a success. How the handler uses this test is stated by `FactoringPage.Classify`. |
| `FactoringPage.Classify` | RazorApp/Pages/Index.cshtml.cs:74-99 | The reply means "prime" exactly when its status is 400. It means "factored" exactly when the status is a success, the body has a `factors` array and every factor fits in an `int`; the factors are then that array. Every other reply, including a failed call, is an error. |
| `FactoringPage.QuantumMessage` | RazorApp/Pages/Index.cshtml.cs:74-99 | `QuantumResult` is the prime text for a prime, the error text for an error, and for a factor list a text that reads back as those factors. |
| `FactoringPage.ClassicalMessage` | RazorApp/Pages/Index.cshtml.cs:105-112 | `ClassicalResult` is the prime text when `isPrime` holds, and otherwise a text that reads back as the factor list. |
| `FactoringPage.MessageDeterminesOutcome` | RazorApp/Pages/Index.cshtml.cs:74-99 | Two outcomes that give the same `QuantumResult` text are the same outcome; no factor list is shown as either fixed message. |
| `FactoringPage.FloorLog2` | RazorApp/Pages/Index.cshtml.cs:117 | For `n >= 1` the result `k` satisfies `2^k <= n < 2^(k+1)`. |
| `FactoringPage.BitLength` | RazorApp/Pages/Index.cshtml.cs:117 | For `n >= 1`, `bits >= 1` and `2^(bits-1) <= n < 2^bits`. For 0 it is `int.MinValue + 1`, and for a negative number it is 1. |
| `FactoringPage.BitLengthUnique` | RazorApp/Pages/Index.cshtml.cs:117 | For `n >= 1`, the bit length is the only `b >= 1` with `2^(b-1) <= n < 2^b`. |
| `FactoringPage.BitLengthOfInt32` | RazorApp/Pages/Index.cshtml.cs:117 | A positive `int` has between 1 and 31 bits. |
| `FactoringPage.LoadAfterStore` | RazorApp/Pages/Index.cshtml.cs:28-32 | `LoadHistory` models `GetObject<List<FactoringDataPoint>>(key) ?? new()`. Loading a key gives back what was last stored under it, and storing under another key leaves it unchanged. An empty session loads as the empty list. |
| `FactoringPage.Session.SetObject` | RazorApp/Pages/Index.cshtml.cs:23-26 | Storing a history changes only that key, and loading that key afterwards gives back the same history. |
| `FactoringPage.IndexModel.constructor` | RazorApp/Pages/Index.cshtml.cs:44-53 | A new page has null results, zero times, number 0 and empty `DataPoints` and `FactoringResults`. |
| `FactoringPage.IndexModel.OnGet` | RazorApp/Pages/Index.cshtml.cs:55-59 | `DataPoints` becomes the history stored under `"DataPoints"`, or the empty list when the session has none. Nothing else changes. |
| `FactoringPage.IndexModel.OnPost` | RazorApp/Pages/Index.cshtml.cs:61-125 | `QuantumResult` is the message for the classified reply. `QuantumTime` is the measured time, except on an error, where it keeps its old value. `ClassicalTime` and `ClassicalResult` come from the classical report. Exactly one row `(number.ToString(), QuantumTime, QuantumTime, ClassicalTime)` is appended to `FactoringResults`. Exactly one point with the bit length, `QuantumTime` and `ClassicalTime`, and 0 elsewhere, is appended to `DataPoints`; earlier entries are kept. The new `DataPoints` is stored in the session, and `Number` is unchanged. |
| `FactoringPage.PostThenGet` | RazorApp/Pages/Index.cshtml.cs:58-124 | After a POST on a new page, a GET on another new page over the same session shows exactly the one point the POST stored. |

## Left out

- Timing: `Stopwatch` and `DateTime.Now`. Elapsed times are inputs of type `real`, and floating-point rounding of those times is not modelled.
- The HTTP call (`HttpClient.PostAsJsonAsync`), JSON reading of the reply, and the endpoint URL. These are summarised by the `Reply` datatype. A body that is not a JSON object, or whose factors are not integers, is covered by the `None` case and the `int` range check.
- Logging (`_logger.*`) and the async/await machinery.
- Newtonsoft JSON serialisation in `SessionExtensions`. The session is a map from keys to histories, and serialisation is taken to be exact. A stored literal `null`, which `?? new()` would also turn into an empty list, is not modelled.
- Cultures whose negative sign is not `-` (U+002D). `Int32.ToString()` and the interpolated strings use the current culture. Only negative numbers are affected.
- `Math.Sqrt` and `Math.Log2` as floating point. They are replaced by their exact integer meaning, as described above. For `number <= 0` the model fixes the .NET 9 conversion result.
- The `[BindProperty]` form binding of `DataPoints` on a POST. The handler appends to whatever list the page holds.
- The quantum service itself (PythonApi/shor_api.py) and the Q# routine it calls. Its convention that 400 means "prime" is an assumption built into `Classify`.
- Theoretical cost curves, extrapolation and qubit estimates. The handler never computes them (the fields stay 0), so nothing stands in for them.
- `FactoringDataPoint` is a class with setters in the source. It is never changed after creation, so it is modelled as a datatype value.
