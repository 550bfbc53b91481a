/** The document gateway: how each store operation's reply reaches the
    caller's callback. A failed call is a client error when the decimal
    string of its code starts with '4' (the caller gets the error back) and
    a server error otherwise (the error is logged and the caller's callback
    is never invoked). */
module Gateway {
  import opened JsRuntime

  /** The `code` of a store error, as JavaScript sees it: a number, a string,
      or absent. */
  datatype ErrorCode = Num(n: int) | Text(s: string) | Undefined

  /** The two kinds of store failure. */
  datatype ErrorKind = ClientError | ServerError

  /** A store operation's reply: its result, or an error with a code. */
  datatype Reply<T> = Ok(value: T) | Err(code: ErrorCode)

  /** One call of a two-argument callback, `cb(err, value)`; `None` stands
      for an `undefined` argument. `createDocument`'s one-argument callback
      is recorded differently. */
  datatype Invocation<T> = Invocation(err: Option<ErrorCode>, value: Option<T>)

  /** `new String(code)`. */
  function CodeString(code: ErrorCode): string {
    match code
    case Num(n) => IntToString(n)
    case Text(s) => s
    case Undefined => "undefined"
  }

  /** The leading-'4' rule: the code's string form starts with the character 4. */
  function Classify(code: ErrorCode): (kind: ErrorKind)
    ensures kind == ClientError <==> |CodeString(code)| > 0 && CodeString(code)[0] == '4'
  {
    if CharAt(CodeString(code), 0) == "4" then ClientError else ServerError
  }

  // ---- The leading-'4' rule as arithmetic ----

  function Pow10(k: nat): (p: nat)
    ensures p >= 1
  {
    if k == 0 then 1 else 10 * Pow10(k - 1)
  }

  /** The most significant decimal digit of `n`. */
  function LeadingDigit(n: nat): (d: nat)
    ensures d < 10
    decreases n
  {
    if n < 10 then n else LeadingDigit(n / 10)
  }

  /** The decimal numeral of `n` starts with the digit `LeadingDigit(n)`. */
  lemma {:induction false} NumeralStartsWithLeadingDigit(n: nat)
    ensures NatToString(n)[0] == DigitChar(LeadingDigit(n))
    decreases n
  {
    if n >= 10 {
      NumeralStartsWithLeadingDigit(n / 10);
      assert NatToString(n) == NatToString(n / 10) + [DigitChar(n % 10)];
    }
  }

  /** A number in the band `[d * 10^k, (d + 1) * 10^k)` has leading digit `d`. */
  lemma {:induction false} LeadingDigitOfBand(n: nat, k: nat, d: nat)
    requires 1 <= d <= 9
    requires d * Pow10(k) <= n < (d + 1) * Pow10(k)
    ensures LeadingDigit(n) == d
    decreases k
  {
    if k > 0 {
      var p := Pow10(k - 1);
      var lo := d * p;
      var hi := (d + 1) * p;
      assert d * Pow10(k) == 10 * lo;
      assert (d + 1) * Pow10(k) == 10 * hi;
      assert lo <= n / 10 < hi;
      LeadingDigitOfBand(n / 10, k - 1, d);
    }
  }

  /** A non-negative numeric code of `k + 1` digits is a client error exactly
      when it lies in `[4 * 10^k, 5 * 10^k)`. */
  lemma ClientErrorBand(n: int, k: nat)
    requires Pow10(k) <= n < 10 * Pow10(k)
    ensures Classify(Num(n)) == ClientError <==> 4 * Pow10(k) <= n < 5 * Pow10(k)
  {
    NumeralStartsWithLeadingDigit(n);
    var p := Pow10(k);
    if n < 2 * p { LeadingDigitOfBand(n, k, 1); }
    else if n < 3 * p { LeadingDigitOfBand(n, k, 2); }
    else if n < 4 * p { LeadingDigitOfBand(n, k, 3); }
    else if n < 5 * p { LeadingDigitOfBand(n, k, 4); }
    else if n < 6 * p { LeadingDigitOfBand(n, k, 5); }
    else if n < 7 * p { LeadingDigitOfBand(n, k, 6); }
    else if n < 8 * p { LeadingDigitOfBand(n, k, 7); }
    else if n < 9 * p { LeadingDigitOfBand(n, k, 8); }
    else { LeadingDigitOfBand(n, k, 9); }
  }

  /** For three-digit codes the rule is the HTTP 4xx class. */
  lemma HttpStatusClass(n: int)
    requires 100 <= n < 1000
    ensures Classify(Num(n)) == ClientError <==> 400 <= n < 500
  {
    assert Pow10(2) == 100;
    ClientErrorBand(n, 2);
  }

  /** Negative, zero and absent codes are server errors. */
  lemma NonPositiveCodesAreServerErrors(n: int)
    requires n <= 0
    ensures Classify(Num(n)) == ServerError
    ensures Classify(Undefined) == ServerError
  {
    if n == 0 {
      assert NatToString(0) == ['0'];
    }
  }

  // ---- Callbacks per operation ----

  /** `readDocument`: the document on success, the error on a client error,
      and no callback on a server error. */
  function ReadDocument<T>(reply: Reply<T>): (calls: seq<Invocation<T>>)
    ensures |calls| <= 1
    ensures calls == [] <==> reply.Err? && Classify(reply.code) == ServerError
    ensures forall c :: c in calls ==> (c.err.Some? <==> c.value.None?)
    ensures forall c :: c in calls && c.err.Some? ==> reply.Err? && c.err.value == reply.code
    ensures forall c :: c in calls && c.value.Some? ==> reply.Ok? && c.value.value == reply.value
  {
    match reply
    case Ok(doc) => [Invocation(None, Some(doc))]
    case Err(code) =>
      if CharAt(CodeString(code), 0) == "4" then [Invocation(Some(code), None)] else []
  }

  /** What a callback handler does with one reply: the callback calls it
      makes, and whether it then stops on an uncaught exception. */
  datatype Run<T> = Run(calls: seq<Invocation<T>>, threw: bool)

  /** `queryDocuments` as written. Every error first passes through
      `JSON.parse(err).message` (index.js:42); `parsesErr` says whether that
      completes, which it does not for a plain error object, whose string
      form is `[object Object]`. After that line, a client error is handed
      back and a server error goes to `handleError`, whose own
      `JSON.parse(error.body)` completes iff `parsesBody`. Either way,
      control then falls through to a second `cb(undefined, results)` with
      `results` undefined. */
  function QueryDocumentsAsWritten<T>(reply: Reply<T>, parsesErr: bool, parsesBody: bool): (r: Run<T>)
    ensures reply.Ok? ==> r == Run([Invocation(None, Some(reply.value))], false)
    ensures r.threw <==>
      reply.Err? && (!parsesErr || (Classify(reply.code) == ServerError && !parsesBody))
    ensures r.threw ==> r.calls == []
    ensures !r.threw ==> |r.calls| >= 1 && r.calls[|r.calls| - 1].err == None
  {
    match reply
    case Ok(results) => Run([Invocation(None, Some(results))], false)
    case Err(code) =>
      if !parsesErr then Run([], true)
      else if CharAt(CodeString(code), 0) == "4" then
        Run([Invocation(Some(code), None), Invocation(None, None)], false)
      else if !parsesBody then Run([], true)
      else Run([Invocation(None, None)], false)
  }

  /** `queryDocuments` with the single outcome its branches intend. */
  function QueryDocuments<T>(reply: Reply<T>): (calls: seq<Invocation<T>>)
    ensures |calls| <= 1
    ensures forall c :: c in calls ==> (c.err.Some? <==> c.value.None?)
  {
    match reply
    case Ok(results) => [Invocation(None, Some(results))]
    case Err(code) =>
      match Classify(code)
      case ClientError => [Invocation(Some(code), None)]
      case ServerError => []
  }

  /** `deleteDocument`: `cb()` on success; every error, client-class or not,
      is only logged. */
  function DeleteDocument(reply: Reply<()>): (calls: seq<Invocation<()>>)
    ensures |calls| <= 1
    ensures calls != [] <==> reply.Ok?
    ensures forall c :: c in calls ==> c.err == None
  {
    if reply.Ok? then [Invocation(None, None)] else []
  }

  /** `createDocument`: `cb(document)` on success; an error is only logged.
      Its callback takes one argument, the document, not `(err, value)`, so
      each call is recorded as the document it receives. */
  function CreateDocument<T>(reply: Reply<T>): (calls: seq<T>)
    ensures |calls| <= 1
    ensures calls != [] <==> reply.Ok?
    ensures forall c :: c in calls ==> c == reply.value
  {
    if reply.Ok? then [reply.value] else []
  }

  /** The corrected query routes every reply exactly as a read does. */
  lemma QueryRoutesLikeRead<T>(reply: Reply<T>)
    ensures QueryDocuments(reply) == ReadDocument(reply)
  {
  }

  /** Whenever the logging lines complete, the as-written query differs
      from the corrected one exactly by the trailing fall-through call. */
  lemma QueryDropsOnlyFallThrough<T>(reply: Reply<T>, parsesBody: bool)
    requires reply.Err? && Classify(reply.code) == ServerError ==> parsesBody
    ensures QueryDocumentsAsWritten(reply, true, parsesBody)
      == Run(QueryDocuments(reply) + (if reply.Err? then [Invocation(None, None)] else []), false)
  {
  }

  /** As written, a store error object never reaches the callback: the
      logging line throws first, so even a client error that a read hands
      back is lost. */
  lemma QueryAsWrittenLosesClientError<T>(code: ErrorCode, parsesBody: bool)
    requires Classify(code) == ClientError
    ensures QueryDocumentsAsWritten<T>(Err(code), false, parsesBody) == Run([], true)
    ensures ReadDocument<T>(Err(code)) == [Invocation(Some(code), None)]
    ensures QueryDocuments<T>(Err(code)) == ReadDocument<T>(Err(code))
  {
  }

  /** As written, a 404 whose logging line completes reaches the callback
      twice: once with the error and once as an apparent success without
      results. */
  lemma QueryAsWrittenCallsBackTwice(parsesBody: bool)
    ensures QueryDocumentsAsWritten<seq<int>>(Err(Num(404)), true, parsesBody)
      == Run([Invocation(Some(Num(404)), None), Invocation(None, None)], false)
  {
    HttpStatusClass(404);
  }

  /** As written, a 500 whose logging lines complete is handled and still
      reaches the callback as an apparent success without results. */
  lemma QueryAsWrittenCallsBackAfterServerError()
    ensures QueryDocumentsAsWritten<seq<int>>(Err(Num(500)), true, true) == Run([Invocation(None, None)], false)
  {
    HttpStatusClass(500);
  }

  /** On success, create delivers as its only callback argument the same
      document a read delivers as its second one, after an undefined error.
      On an error create never calls back, whereas a read hands client
      errors back. */
  lemma CreateDeliversWhatReadDelivers<T>(reply: Reply<T>)
    ensures reply.Ok? ==>
      |CreateDocument(reply)| == |ReadDocument(reply)| == 1
      && ReadDocument(reply)[0] == Invocation(None, Some(CreateDocument(reply)[0]))
    ensures reply.Err? ==>
      CreateDocument(reply) == [] && (ReadDocument(reply) == [] <==> Classify(reply.code) == ServerError)
  {
  }

  /** Delete does not classify: a client-class error that a read would hand
      back is dropped by delete. */
  lemma DeleteDropsClientErrors(code: ErrorCode)
    requires Classify(code) == ClientError
    ensures ReadDocument<()>(Err(code)) == [Invocation(Some(code), None)]
    ensures DeleteDocument(Err(code)) == []
  {
  }
}
