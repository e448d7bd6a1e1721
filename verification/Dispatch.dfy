/** The retry loop of apiGatewayAdapter.DispatchWithPayload, internal/runtime/adapter.go. */
module Dispatch {
  import opened Text

  /** What one attempt meets: a failed request, or a status and a body. */
  datatype Reply = Failure(text: string) | Answer(code: int, body: string)

  /** The fields of ProviderCall that the loop writes. */
  datatype Call = Call(attemptCount: nat, status: string, lastError: Option<string>, lastHttpStatus: Option<int>,
                       responsePreview: Option<string>, notes: seq<string>)

  predicate ShouldRetry(code: int) { if code == 429 then true else code >= 500 }

  predicate Succeeds(r: Reply) { r.Answer? && 200 <= r.code < 300 }

  /** A reply after which there is no further attempt, however many are left. */
  predicate IsFinal(r: Reply) { Succeeds(r) || (r.Answer? && !ShouldRetry(r.code)) }

  function Preview(body: string): string {
    var text := TrimSpace(body);
    if |text| > 280 then text[..280] else text
  }

  /** The texts the loop writes, from the endpoint and strconv.Itoa; ProgramTexts gives the program's own. */
  datatype Texts = Texts(endpoint: string, attempt: int -> string, failed: string, status: int -> string, retry: string,
                         unnamed: string, statusError: int -> string)
  {
    ghost predicate Valid() {
      retry != endpoint && retry != failed && (forall n :: attempt(n) != retry) && (forall n :: status(n) != retry)
    }
  }

  function ProgramTexts(endpoint: string, itoa: int -> string): Texts {
    Texts("dispatch:endpoint=" + endpoint, n => "dispatch:attempt=" + itoa(n), "dispatch:error=http_request_failed",
          n => "dispatch:http_status=" + itoa(n), "dispatch:retry=scheduled", "http_request_failed", n => "http_status_" + itoa(n))
  }

  lemma ProgramIsValid(endpoint: string, itoa: int -> string)
    ensures ProgramTexts(endpoint, itoa).Valid()
  {
    var t := ProgramTexts(endpoint, itoa);
    assert t.retry[9] == 'r' && t.endpoint[9] == 'e' && t.failed[9] == 'e';
    forall n ensures t.attempt(n) != t.retry && t.status(n) != t.retry {
      assert t.attempt(n)[9] == 'a' && t.status(n)[9] == 'h';
    }
  }

  function ErrorText(t: Texts, r: Reply): string {
    match r
    case Failure(text) => if TrimSpace(text) == "" then t.unnamed else TrimSpace(text)
    case Answer(code, _) => t.statusError(code)
  }

  // ----- what the replies so far amount to ------------------------------------------------------

  /** The last status seen in the first k attempts; `before` if there was none. */
  function LastStatus(script: nat -> Reply, k: nat, before: Option<int>): Option<int> {
    if k == 0 then before
    else if script(k).Answer? then Some(script(k).code)
    else LastStatus(script, k - 1, before)
  }

  function LastPreview(script: nat -> Reply, k: nat, before: Option<string>): Option<string> {
    if k == 0 then before
    else if script(k).Answer? && Preview(script(k).body) != "" then Some(Preview(script(k).body))
    else LastPreview(script, k - 1, before)
  }

  function AppendEach(notes: seq<string>, more: seq<string>): seq<string> {
    if more == [] then notes else AppendUnique(AppendEach(notes, more[..|more|-1]), more[|more|-1])
  }

  function TurnNotes(t: Texts, r: Reply, k: nat): seq<string> {
    [t.endpoint, t.attempt(k), if r.Failure? then t.failed else t.status(r.code)]
  }

  function Announced(t: Texts, again: bool): seq<string> { if again then [t.retry] else [] }

  /** What is written into the notes before attempt k + 1, if there is one: k turns, each announcing the next. */
  function Due(t: Texts, script: nat -> Reply, k: nat): seq<string> {
    if k == 0 then [] else Due(t, script, k - 1) + TurnNotes(t, script(k), k) + [t.retry]
  }

  /** What is written by a dispatch of k attempts. */
  function Trace(t: Texts, script: nat -> Reply, k: nat): seq<string> {
    if k == 0 then [] else Due(t, script, k - 1) + TurnNotes(t, script(k), k)
  }

  lemma {:induction false} AppendEachInTwo(notes: seq<string>, a: seq<string>, b: seq<string>)
    ensures AppendEach(notes, a + b) == AppendEach(AppendEach(notes, a), b)
  {
    if b == [] {
      assert a + b == a;
    } else {
      AppendEachInTwo(notes, a, b[..|b|-1]);
      assert (a + b)[..|a + b|-1] == a + b[..|b|-1];
    }
  }

  lemma AppendOne(notes: seq<string>, x: string)
    ensures AppendEach(notes, [x]) == AppendUnique(notes, x)
  {
    assert [x][..0] == [];
  }

  /**
  Attempts go on until a reply is final or the retries are used up; the call is sent exactly when the last reply
  is a success, and then alone it has no error.
  */
  method DispatchWithPayload(t: Texts, start: Call, script: nat -> Reply, retries: nat) returns (call: Call)
    ensures 1 <= call.attemptCount <= retries + 1
    ensures forall k :: 1 <= k < call.attemptCount ==> !IsFinal(script(k))
    ensures call.attemptCount <= retries ==> IsFinal(script(call.attemptCount))
    ensures call.status == (if Succeeds(script(call.attemptCount)) then "sent" else "failed")
    ensures call.lastError == (if Succeeds(script(call.attemptCount)) then None else Some(ErrorText(t, script(call.attemptCount))))
    ensures call.lastHttpStatus == LastStatus(script, call.attemptCount, start.lastHttpStatus)
    ensures call.responsePreview == LastPreview(script, call.attemptCount, start.responsePreview)
    ensures call.notes == AppendEach(start.notes, Trace(t, script, call.attemptCount))
  {
    call := start;
    for attempt := 1 to retries + 2
      invariant forall k :: 1 <= k < attempt ==> !IsFinal(script(k))
      invariant attempt < retries + 2
      invariant call.lastHttpStatus == LastStatus(script, attempt - 1, start.lastHttpStatus)
      invariant call.responsePreview == LastPreview(script, attempt - 1, start.responsePreview)
      invariant call.notes == AppendEach(start.notes, Due(t, script, attempt - 1))
    {
      var again;
      call, again := Turn(t, call, script, attempt, retries, start.notes);
      if !again { return; }
    }
    // The last attempt returned: the assignment after the loop in the source is never reached.
    assert false;
  }

  /** One turn of the loop, said about the whole dispatch so far. */
  method Turn(t: Texts, before: Call, script: nat -> Reply, attempt: nat, retries: nat, ghost notes: seq<string>)
    returns (call: Call, again: bool)
    requires attempt >= 1 && before.notes == AppendEach(notes, Due(t, script, attempt - 1))
    ensures again <==> attempt <= retries && !IsFinal(script(attempt))
    ensures call.attemptCount == attempt
    ensures !again ==> call.status == if Succeeds(script(attempt)) then "sent" else "failed"
    ensures call.lastError == if Succeeds(script(attempt)) then None else Some(ErrorText(t, script(attempt)))
    ensures call.lastHttpStatus == if script(attempt).Answer? then Some(script(attempt).code) else before.lastHttpStatus
    ensures call.responsePreview == if script(attempt).Answer? && Preview(script(attempt).body) != ""
                                    then Some(Preview(script(attempt).body)) else before.responsePreview
    ensures call.notes == AppendEach(notes, if again then Due(t, script, attempt) else Trace(t, script, attempt))
  {
    call, again := Attempt(t, before, script(attempt), attempt, retries);
    TraceGrows(t, notes, script, attempt, before.notes, call.notes, again);
  }

  lemma TraceGrows(t: Texts, notes: seq<string>, script: nat -> Reply, k: nat, before: seq<string>, after: seq<string>, again: bool)
    requires k >= 1 && before == AppendEach(notes, Due(t, script, k - 1))
    requires after == AppendEach(before, TurnNotes(t, script(k), k) + Announced(t, again))
    ensures again ==> after == AppendEach(notes, Due(t, script, k))
    ensures !again ==> after == AppendEach(notes, Trace(t, script, k))
  {
    var turn := TurnNotes(t, script(k), k);
    AppendEachInTwo(notes, Due(t, script, k - 1), turn + Announced(t, again));
    assert Due(t, script, k - 1) + (turn + [t.retry]) == Due(t, script, k);
    assert turn + [] == turn;
  }

  lemma TurnIs(t: Texts, notes: seq<string>, r: Reply, k: nat)
    ensures var three := AppendUnique(AppendUnique(AppendUnique(notes, t.endpoint), t.attempt(k)),
                                      if r.Failure? then t.failed else t.status(r.code));
            && AppendEach(notes, TurnNotes(t, r, k) + Announced(t, false)) == three
            && AppendEach(notes, TurnNotes(t, r, k) + Announced(t, true)) == AppendUnique(three, t.retry)
  {
    var (a, b, c) := (t.endpoint, t.attempt(k), if r.Failure? then t.failed else t.status(r.code));
    assert TurnNotes(t, r, k) + Announced(t, false) == [a] + [b] + [c];
    assert TurnNotes(t, r, k) + Announced(t, true) == [a] + [b] + [c] + [t.retry];
    AppendEachInTwo(notes, [a] + [b] + [c], [t.retry]);
    AppendEachInTwo(notes, [a] + [b], [c]);
    AppendEachInTwo(notes, [a], [b]);
    AppendOne(notes, a);
    AppendOne(AppendEach(notes, [a]), b);
    AppendOne(AppendEach(notes, [a] + [b]), c);
    AppendOne(AppendEach(notes, [a] + [b] + [c]), t.retry);
  }

  /** One turn of the loop. */
  method Attempt(t: Texts, before: Call, response: Reply, attempt: nat, retries: nat) returns (call: Call, again: bool)
    ensures again <==> attempt <= retries && !IsFinal(response)
    ensures call.attemptCount == attempt
    ensures !again ==> call.status == if Succeeds(response) then "sent" else "failed"
    ensures call.lastError == if Succeeds(response) then None else Some(ErrorText(t, response))
    ensures call.lastHttpStatus == if response.Answer? then Some(response.code) else before.lastHttpStatus
    ensures call.responsePreview == if response.Answer? && Preview(response.body) != "" then Some(Preview(response.body))
                                    else before.responsePreview
    ensures call.notes == AppendEach(before.notes, TurnNotes(t, response, attempt) + Announced(t, again))
  {
    TurnIs(t, before.notes, response, attempt);
    call := before.(attemptCount := attempt);
    call := call.(notes := AppendUnique(call.notes, t.endpoint));
    call := call.(notes := AppendUnique(call.notes, t.attempt(attempt)));
    if response.Failure? {
      var errText := TrimSpace(response.text);
      if errText == "" { errText := t.unnamed; }
      call := call.(lastError := Some(errText));
      call := call.(notes := AppendUnique(call.notes, t.failed));
      if attempt <= retries {
        return call.(notes := AppendUnique(call.notes, t.retry)), true;
      }
      return call.(status := "failed"), false;
    }
    call := call.(lastHttpStatus := Some(response.code));
    var preview := TrimSpace(response.body);
    if preview != "" {
      if |preview| > 280 { preview := preview[..280]; }
      call := call.(responsePreview := Some(preview));
    }
    call := call.(notes := AppendUnique(call.notes, t.status(response.code)));
    if response.code >= 200 && response.code < 300 {
      return call.(status := "sent", lastError := None), false;
    }
    call := call.(lastError := Some(t.statusError(response.code)));
    if !ShouldRetry(response.code) || attempt > retries {
      return call.(status := "failed"), false;
    }
    return call.(notes := AppendUnique(call.notes, t.retry)), true;
  }

  // ----- what a reply means -----------------------------------------------------------------------

  /** Failed requests, 429 and the server's own errors are tried again; a success ends the dispatch, as does any other status. */
  lemma RepliesDecide(r: Reply)
    ensures !IsFinal(r) <==> r.Failure? || r.code == 429 || r.code >= 500
    ensures Succeeds(r) <==> r.Answer? && 200 <= r.code <= 299
  {
  }

  /** A preview is the beginning of the trimmed body; an error is the trimmed text of the failure, or names the status. */
  lemma RepliesRead(t: Texts, r: Reply)
    ensures r.Answer? ==> Preview(r.body) <= TrimSpace(r.body)
    ensures r.Answer? ==> |Preview(r.body)| == if |TrimSpace(r.body)| < 280 then |TrimSpace(r.body)| else 280
    ensures r.Answer? ==> ErrorText(t, r) == t.statusError(r.code)
    ensures r.Failure? && TrimSpace(r.text) != "" ==> ErrorText(t, r) == TrimSpace(r.text)
    ensures r.Failure? && TrimSpace(r.text) == "" ==> ErrorText(t, r) == t.unnamed
  {
  }

  // ----- laws -------------------------------------------------------------------------------------

  /** The number of attempts: up to the first final reply, and no more than one more than the retries. */
  function Attempts(script: nat -> Reply, retries: nat, from: nat): nat
    requires 1 <= from <= retries + 1
    decreases retries + 1 - from
  {
    if IsFinal(script(from)) || from == retries + 1 then from else Attempts(script, retries, from + 1)
  }

  /** The method's contract determines that number. */
  lemma {:induction false} AttemptsAre(script: nat -> Reply, retries: nat, from: nat, n: nat)
    requires 1 <= from <= n <= retries + 1
    requires forall k :: from <= k < n ==> !IsFinal(script(k))
    requires n <= retries ==> IsFinal(script(n))
    ensures Attempts(script, retries, from) == n
    decreases n - from
  {
    if from < n { AttemptsAre(script, retries, from + 1, n); }
  }

  /** More retries never turn a sent call into a failed one, and change nothing once a reply was final. */
  lemma MoreRetries(script: nat -> Reply, retries: nat, more: nat)
    requires retries <= more
    ensures var (n, m) := (Attempts(script, retries, 1), Attempts(script, more, 1));
            n <= m && (IsFinal(script(n)) ==> m == n) && (Succeeds(script(n)) ==> Succeeds(script(m)))
  {
    AttemptsGrow(script, retries, more, 1);
  }

  lemma {:induction false} AttemptsGrow(script: nat -> Reply, retries: nat, more: nat, from: nat)
    requires 1 <= from <= retries + 1 && retries <= more
    ensures var (n, m) := (Attempts(script, retries, from), Attempts(script, more, from));
            from <= n <= m && (IsFinal(script(n)) ==> m == n)
    decreases retries + 1 - from
  {
    if !IsFinal(script(from)) && from < retries + 1 {
      AttemptsGrow(script, retries, more, from + 1);
    } else if !IsFinal(script(from)) {
      AttemptsBound(script, more, from);
    }
  }

  lemma {:induction false} AttemptsBound(script: nat -> Reply, retries: nat, from: nat)
    requires 1 <= from <= retries + 1
    ensures from <= Attempts(script, retries, from) <= retries + 1
    decreases retries + 1 - from
  {
    if !IsFinal(script(from)) && from < retries + 1 { AttemptsBound(script, retries, from + 1); }
  }

  lemma {:induction false} AppendEachHas(notes: seq<string>, more: seq<string>, x: string)
    ensures x in AppendEach(notes, more) <==> x in notes || x in more
  {
    if more != [] {
      AppendEachHas(notes, more[..|more|-1], x);
      assert more == more[..|more|-1] + [more[|more|-1]];
    }
  }

  /** What is noted of a reply: that there was none, or its status. */
  function ReplyNote(t: Texts, r: Reply): string {
    match r
    case Failure(_) => t.failed
    case Answer(code, _) => t.status(code)
  }

  lemma {:induction false} DueTells(t: Texts, script: nat -> Reply, k: nat, i: nat)
    requires t.Valid() && i <= k
    ensures i > 0 ==> t.attempt(i) in Due(t, script, k)
    ensures i > 0 ==> ReplyNote(t, script(i)) in Due(t, script, k)
    ensures t.retry in Due(t, script, k) <==> k > 0
  {
    if k > 0 {
      assert TurnNotes(t, script(k), k)[1] == t.attempt(k) && TurnNotes(t, script(k), k)[2] == ReplyNote(t, script(k));
      DueTells(t, script, k - 1, if i < k then i else 0);
    }
  }

  lemma TraceTells(t: Texts, script: nat -> Reply, k: nat, i: nat)
    requires t.Valid() && 1 <= i <= k
    ensures t.endpoint in Trace(t, script, k) && t.attempt(i) in Trace(t, script, k) && ReplyNote(t, script(i)) in Trace(t, script, k)
    ensures t.retry in Trace(t, script, k) <==> k > 1
  {
    var turn := TurnNotes(t, script(k), k);
    assert t.retry !in turn;
    assert turn[0] == t.endpoint && turn[1] == t.attempt(k) && turn[2] == ReplyNote(t, script(k));
    DueTells(t, script, k - 1, if i < k then i else 0);
  }

  /**
  The notes keep what was there, name the endpoint, every attempt made and what it met, and say that a retry was
  scheduled exactly when there was one.
  */
  lemma NotesTell(t: Texts, notes: seq<string>, script: nat -> Reply, k: nat, i: nat, x: string)
    requires t.Valid() && 1 <= i <= k
    ensures var after := AppendEach(notes, Trace(t, script, k));
            && (x in notes ==> x in after)
            && t.endpoint in after && t.attempt(i) in after && ReplyNote(t, script(i)) in after
            && (t.retry in after <==> t.retry in notes || k > 1)
  {
    TraceTells(t, script, k, i);
    AppendEachHas(notes, Trace(t, script, k), x);
    AppendEachHas(notes, Trace(t, script, k), t.endpoint);
    AppendEachHas(notes, Trace(t, script, k), t.attempt(i));
    AppendEachHas(notes, Trace(t, script, k), ReplyNote(t, script(i)));
    AppendEachHas(notes, Trace(t, script, k), t.retry);
  }

  /** The status kept is that of the last attempt that was answered; without one it is the one there was. */
  lemma {:induction false} LastStatusIs(script: nat -> Reply, k: nat, i: nat, before: Option<int>)
    requires i <= k && forall j: nat :: i < j <= k ==> script(j).Failure?
    ensures i > 0 && script(i).Answer? ==> LastStatus(script, k, before) == Some(script(i).code)
    ensures i == 0 ==> LastStatus(script, k, before) == before
  {
    if i < k { LastStatusIs(script, k - 1, i, before); }
  }

  /** And the preview that of the last answer with a body. */
  lemma {:induction false} LastPreviewIs(script: nat -> Reply, k: nat, i: nat, before: Option<string>)
    requires i <= k && forall j: nat :: i < j <= k ==> !HasBody(script(j))
    ensures i > 0 && HasBody(script(i)) ==> LastPreview(script, k, before) == Some(Preview(script(i).body))
    ensures i == 0 ==> LastPreview(script, k, before) == before
  {
    if i < k { LastPreviewIs(script, k - 1, i, before); }
  }

  predicate HasBody(r: Reply) { r.Answer? && TrimSpace(r.body) != "" }
}
