/** The konnector's run: log in, gather the bill stubs of every year,
    decorate them, then read and save one bill at a time. */
module Pipeline {
  import opened Wrappers
  import opened Errors
  import opened Locator
  import opened Bills

  // ---------------------------------------------------------------------
  // Gathering the stubs of every year

  /** The bills accumulated by `bills = bills.concat(...)`, one page of
      stubs per year, in the order the years are listed. */
  function Concat(pages: seq<seq<Record>>): seq<Record> {
    if pages == [] then [] else Concat(pages[..|pages| - 1]) + pages[|pages| - 1]
  }

  /** The `for (const year of years)` loop of `handleBills`, given the stubs
      scraped from each year's page. */
  method CollectBills(pages: seq<seq<Record>>) returns (bills: seq<Record>)
    ensures bills == Concat(pages)
  {
    bills := [];
    for y := 0 to |pages|
      invariant bills == Concat(pages[..y])
    {
      assert pages[..y + 1][..y] == pages[..y];
      bills := bills + pages[y];
    }
    assert pages[..|pages|] == pages;
  }

  /** Every stub of every year is gathered, and nothing else. */
  lemma {:induction false} ConcatContents(pages: seq<seq<Record>>, bill: Record)
    ensures bill in Concat(pages) <==> exists y :: 0 <= y < |pages| && bill in pages[y]
  {
    if pages != [] {
      var init := pages[..|pages| - 1];
      ConcatContents(init, bill);
      if bill in Concat(pages) && bill !in pages[|pages| - 1] {
        var y :| 0 <= y < |init| && bill in init[y];
        assert pages[y] == init[y];
      }
      if y :| 0 <= y < |pages| && bill in pages[y] {
        if y < |init| {
          assert init[y] == pages[y];
        }
      }
    }
  }

  /** The number of stubs gathered is the sum over the years. */
  function TotalStubs(pages: seq<seq<Record>>): nat {
    if pages == [] then 0 else TotalStubs(pages[..|pages| - 1]) + |pages[|pages| - 1]|
  }

  lemma {:induction false} ConcatLength(pages: seq<seq<Record>>)
    ensures |Concat(pages)| == TotalStubs(pages)
  {
    if pages != [] {
      ConcatLength(pages[..|pages| - 1]);
    }
  }

  // ---------------------------------------------------------------------
  // Reading and saving the bills one at a time

  /** One call `saveBills(entries, folderPath, { identifiers, contentType })`. */
  datatype SaveCall = SaveCall(entries: seq<Record>, folderPath: string, identifiers: seq<string>, contentType: string)

  /** The call that saves the completed bill `result`. */
  function SaveOf(result: Record, folderPath: string): SaveCall {
    SaveCall([result], folderPath, ["o2"], "application/pdf")
  }

  /** What `findAndAddAmount` gives for each bill; `docs(j)` is the
      download of the j-th bill. */
  function Outcomes(bills: seq<Record>, docs: nat -> Document): (r: seq<Result<Record, Error>>)
    ensures |r| == |bills|
    ensures forall j :: 0 <= j < |bills| ==> r[j] == Amend(bills[j], docs(j))
  {
    seq(|bills|, j requires 0 <= j < |bills| => Amend(bills[j], docs(j)))
  }

  /** What `bluebird.mapSeries` does from bill `i` on, given what
      `findAndAddAmount` gives for each bill: the completed bills (or the
      error that rejects the run) and the `saveBills` calls made. */
  function Series(outcomes: seq<Result<Record, Error>>, folderPath: string, i: nat)
    : (r: (Result<seq<Record>, Error>, seq<SaveCall>))
    requires i <= |outcomes|
    ensures |r.1| <= |outcomes| - i
    ensures r.0.Success? ==> |r.0.value| == |r.1| == |outcomes| - i
    decreases |outcomes| - i
  {
    if i == |outcomes| then (Success([]), [])
    else match outcomes[i]
      case Failure(e) => (Failure(e), [])
      case Success(result) =>
        var (rest, calls) := Series(outcomes, folderPath, i + 1);
        (if rest.Success? then Success([result] + rest.value) else rest, [SaveOf(result, folderPath)] + calls)
  }

  /** The bills done before step `i` followed by what is left to do. */
  function Resume(done: seq<Record>, saved: seq<SaveCall>, rest: (Result<seq<Record>, Error>, seq<SaveCall>))
    : (Result<seq<Record>, Error>, seq<SaveCall>)
  {
    (if rest.0.Success? then Success(done + rest.0.value) else rest.0, saved + rest.1)
  }

  lemma ResumeFromStart(outcomes: seq<Result<Record, Error>>, folderPath: string)
    ensures Resume([], [], Series(outcomes, folderPath, 0)) == Series(outcomes, folderPath, 0)
  {
    var whole := Series(outcomes, folderPath, 0);
    assert [] + whole.1 == whole.1;
    assert whole.0.Success? ==> [] + whole.0.value == whole.0.value;
  }

  /** Completing bill `i` moves it from what is left to what is done. */
  lemma ResumeAfterStep(outcomes: seq<Result<Record, Error>>, folderPath: string, i: nat,
                        done: seq<Record>, saved: seq<SaveCall>)
    requires i < |outcomes| && outcomes[i].Success?
    ensures Resume(done, saved, Series(outcomes, folderPath, i))
         == Resume(done + [outcomes[i].value], saved + [SaveOf(outcomes[i].value, folderPath)], Series(outcomes, folderPath, i + 1))
  {
    var result := outcomes[i].value;
    var rest := Series(outcomes, folderPath, i + 1);
    assert done + ([result] + (if rest.0.Success? then rest.0.value else [])) ==
           (done + [result]) + (if rest.0.Success? then rest.0.value else []);
    assert saved + ([SaveOf(result, folderPath)] + rest.1) == (saved + [SaveOf(result, folderPath)]) + rest.1;
  }

  lemma ResumeAtRejection(outcomes: seq<Result<Record, Error>>, folderPath: string, i: nat,
                          done: seq<Record>, saved: seq<SaveCall>)
    requires i < |outcomes| && outcomes[i].Failure?
    ensures Resume(done, saved, Series(outcomes, folderPath, i)) == (Failure(outcomes[i].error), saved)
  {
    assert saved + [] == saved;
  }

  lemma ResumeAtEnd(outcomes: seq<Result<Record, Error>>, folderPath: string, done: seq<Record>, saved: seq<SaveCall>)
    ensures Resume(done, saved, Series(outcomes, folderPath, |outcomes|)) == (Success(done), saved)
  {
    assert done + [] == done && saved + [] == saved;
  }

  /** The `bluebird.mapSeries` loop of `handleBills`: each bill is completed
      and saved before the next one is read; the first rejection ends the run. */
  method SaveInSeries(bills: seq<Record>, docs: nat -> Document, folderPath: string)
    returns (outcome: Result<seq<Record>, Error>, calls: seq<SaveCall>)
    ensures (outcome, calls) == Series(Outcomes(bills, docs), folderPath, 0)
  {
    ghost var outcomes := Outcomes(bills, docs);
    ghost var whole := Series(outcomes, folderPath, 0);
    ResumeFromStart(outcomes, folderPath);
    var results := [];
    calls := [];
    var i := 0;
    while i < |bills|
      invariant i <= |bills|
      invariant whole == Resume(results, calls, Series(outcomes, folderPath, i))
    {
      var result := FindAndAddAmount(bills[i], docs(i));
      assert result == outcomes[i];
      if result.Failure? {
        ResumeAtRejection(outcomes, folderPath, i, results, calls);
        return Failure(result.error), calls;
      }
      ResumeAfterStep(outcomes, folderPath, i, results, calls);
      calls := calls + [SaveOf(result.value, folderPath)];
      results := results + [result.value];
      i := i + 1;
    }
    ResumeAtEnd(outcomes, folderPath, results, calls);
    outcome := Success(results);
  }

  /** The run completes exactly when no bill is rejected. */
  lemma {:induction false} SeriesSucceedsIff(outcomes: seq<Result<Record, Error>>, folderPath: string, i: nat)
    requires i <= |outcomes|
    ensures Series(outcomes, folderPath, i).0.Success? <==> forall j :: i <= j < |outcomes| ==> outcomes[j].Success?
    decreases |outcomes| - i
  {
    if i < |outcomes| {
      SeriesSucceedsIff(outcomes, folderPath, i + 1);
    }
  }

  /** A completed run saves every bill once, in order, each alone in its
      `saveBills` call with the identifier 'o2', and yields the completed
      bills in the same order. */
  lemma {:induction false} SeriesOnSuccess(outcomes: seq<Result<Record, Error>>, folderPath: string, i: nat)
    requires i <= |outcomes|
    requires Series(outcomes, folderPath, i).0.Success?
    ensures var (outcome, calls) := Series(outcomes, folderPath, i);
      && |outcome.value| == |calls| == |outcomes| - i
      && forall j :: 0 <= j < |calls| ==>
           && outcomes[i + j] == Success(outcome.value[j])
           && calls[j] == SaveCall([outcome.value[j]], folderPath, ["o2"], "application/pdf")
    decreases |outcomes| - i
  {
    if i < |outcomes| {
      SeriesOnSuccess(outcomes, folderPath, i + 1);
    }
  }

  /** When bill `k` is the first one rejected, the run rejects with its
      error after saving exactly the bills before it, in order. */
  lemma {:induction false} SeriesOnFailure(outcomes: seq<Result<Record, Error>>, folderPath: string, i: nat, k: nat)
    requires i <= k < |outcomes|
    requires forall j :: i <= j < k ==> outcomes[j].Success?
    requires outcomes[k].Failure?
    ensures var (outcome, calls) := Series(outcomes, folderPath, i);
      && outcome == Failure(outcomes[k].error)
      && |calls| == k - i
      && forall j :: 0 <= j < |calls| ==> calls[j] == SaveOf(outcomes[i + j].value, folderPath)
    decreases k - i
  {
    if i < k {
      SeriesOnFailure(outcomes, folderPath, i + 1, k);
    }
  }

  /** A bill is rejected exactly when its page lacks the label, and then
      with the TypeError of the missing label. */
  lemma OutcomesRejectUnlabelled(bills: seq<Record>, docs: nat -> Document, j: nat)
    requires j < |bills|
    ensures Outcomes(bills, docs)[j].Success? <==> HasLabel(docs(j).items)
    ensures Outcomes(bills, docs)[j].Failure? ==> Outcomes(bills, docs)[j].error == LabelMissing
  {

  }

  /** The run completes exactly when every downloaded first page carries
      the label; otherwise it rejects with the TypeError of the missing label. */
  lemma RunCompletesIffEveryPageLabelled(bills: seq<Record>, docs: nat -> Document, folderPath: string)
    ensures var run := Series(Outcomes(bills, docs), folderPath, 0);
      && (run.0.Success? <==> forall j :: 0 <= j < |bills| ==> HasLabel(docs(j).items))
      && (run.0.Failure? ==> run.0.error == LabelMissing)
  {
    var outcomes := Outcomes(bills, docs);
    SeriesSucceedsIff(outcomes, folderPath, 0);
    match FindFirst(outcomes, (o: Result<Record, Error>) => o.Failure?)
    case None =>
    case Some(k) =>
      SeriesOnFailure(outcomes, folderPath, 0, k);
  }

  /** When every downloaded page carries the label, the run completes and
      its j-th call saves the j-th stub, decorated and completed from the
      j-th download. */
  lemma SavedBillShape(bills: seq<Record>, now: nat -> int, docs: nat -> Document, folderPath: string, j: nat)
    requires j < |bills|
    requires forall i :: 0 <= i < |bills| ==> HasLabel(docs(i).items)
    ensures var run := Series(Outcomes(DecorateAll(bills, now), docs), folderPath, 0);
      && run.0.Success?
      && j < |run.1| && |run.1[j].entries| == 1
      && CompletedFrom(run.1[j].entries[0], bills[j], now(j), docs(j))
  {
    RunCompletesIffEveryPageLabelled(DecorateAll(bills, now), docs, folderPath);
    var outcomes := Outcomes(DecorateAll(bills, now), docs);
    SavedInCall(outcomes, folderPath, j);
    assert outcomes[j] == Amend(Decorate(bills[j], now(j)), docs(j));
    AmendDecorated(bills[j], now(j), docs(j));
  }

  /** In a completed run, the j-th call saves the j-th completed bill alone. */
  lemma SavedInCall(outcomes: seq<Result<Record, Error>>, folderPath: string, j: nat)
    requires j < |outcomes|
    requires Series(outcomes, folderPath, 0).0.Success?
    ensures outcomes[j].Success?
    ensures var calls := Series(outcomes, folderPath, 0).1;
      j < |calls| && calls[j].entries == [outcomes[j].value]
  {
    SeriesOnSuccess(outcomes, folderPath, 0);
    var run := Series(outcomes, folderPath, 0);
    assert outcomes[0 + j] == Success(run.0.value[j]);
  }

  /** `handleBills`, from the stubs scraped for each year on; `now(i)` is the
      import date stamped on the i-th bill. */
  method HandleBills(pages: seq<seq<Record>>, now: nat -> int, docs: nat -> Document, folderPath: string)
    returns (outcome: Result<seq<Record>, Error>, calls: seq<SaveCall>)
    ensures (outcome, calls) == Series(Outcomes(DecorateAll(Concat(pages), now), docs), folderPath, 0)
  {
    var bills := CollectBills(pages);
    bills := DecorateAll(bills, now);
    outcome, calls := SaveInSeries(bills, docs, folderPath);
  }

  // ---------------------------------------------------------------------
  // Logging in

  /** A value `JSON.parse` can produce; numbers are integers here. */
  datatype Json =
    | JNull
    | JBool(b: bool)
    | JNumber(n: int)
    | JString(s: string)
    | JArray(elements: seq<Json>)
    | JObject(members: map<string, Json>)

  /** JavaScript truthiness of a parsed value. */
  predicate Truthy(json: Json) {
    match json
    case JNull => false
    case JBool(b) => b
    case JNumber(n) => n != 0
    case JString(s) => s != ""
    case _ => true
  }

  /** `json.state`, with None for `undefined`. */
  function State(json: Json): Option<Json> {
    if json.JObject? && "state" in json.members then Some(json.members["state"]) else None
  }

  /** The decision `authenticate` takes on the login response, given as the
      result of `JSON.parse` on it (None when it throws). */
  function Authenticate(response: Option<Json>): (r: Outcome<Error>)
    ensures r == Fail(VendorDown) <==> response.None?
    ensures r == Pass <==>
      response.Some? && response.value.JObject? && "state" in response.value.members &&
      response.value.members["state"] == JString("success")
    ensures r.Pass? || r == Fail(VendorDown) || r == Fail(LoginFailed)
  {
    match response
    case None => Fail(VendorDown)
    case Some(json) =>
      if !Truthy(json) || State(json) != Some(JString("success")) then Fail(LoginFailed) else Pass
  }

  /** `start`: log in, then handle the bills; no bill is read or saved
      unless the login succeeds. */
  method Start(response: Option<Json>, pages: seq<seq<Record>>, now: nat -> int, docs: nat -> Document, folderPath: string)
    returns (outcome: Outcome<Error>, calls: seq<SaveCall>)
    ensures Authenticate(response).Fail? ==> outcome == Authenticate(response) && calls == []
    ensures Authenticate(response).Pass? ==>
      var run := Series(Outcomes(DecorateAll(Concat(pages), now), docs), folderPath, 0);
      calls == run.1 && outcome == (if run.0.Success? then Pass else Fail(run.0.error))
  {
    calls := [];
    outcome := Authenticate(response);
    if outcome.Fail? {
      return;
    }
    var result;
    result, calls := HandleBills(pages, now, docs, folderPath);
    outcome := if result.Success? then Pass else Fail(result.error);
  }
}
