/**
 The quiz session of one client as a value, and what one request does to it:
 the lazy start, the `rispondi` and `prossima` actions, the end-of-quiz test
 and the page shown in reply.
 */
module QuizState {
  import opened Wrappers
  import opened QuestionBank

  /** The five session entries the handler keeps once a quiz has started. */
  datatype State = State(
    scelte: seq<string>,     // the drawn question keys, in quiz order
    indice: nat,             // position of the current question in `scelte`
    corrette: nat,           // answers graded right
    errate: nat,             // answers graded wrong
    mostraRisultato: bool)   // whether the current question shows its outcome

  /** An incoming request: a GET, or a POST with its optional form fields. */
  datatype Request = Get | Post(action: Option<string>, risposta: Option<string>)

  /** The exceptions the handler can raise while serving a request. */
  datatype Failure =
    | IndexError            // `scelte[indice]` with `indice` past the end
    | KeyError(key: string) // a drawn key missing from the bank read on this request

  /** What a graded answer adds to the page: the chosen option and the verdict. */
  datatype Feedback = Feedback(selezionata: Option<string>, corretto: Option<bool>)

  const NoFeedback := Feedback(None, None)

  /** The result of the action part of a request. */
  datatype Outcome = Done(st: State, fb: Feedback) | Raised(failure: Failure)

  /** The page sent back: the closing page, a question page, or a server error. */
  datatype Response =
    | FinalPage(corrette: nat, errate: nat)
    | QuestionPage(
        numero: nat, totale: nat, corrette: nat, errate: nat,
        domanda: string, risposte: seq<string>, chiave: string,
        giusta: Option<string>, selezionata: Option<string>,
        corretto: Option<bool>, mostraRisultato: bool)
    | ServerError(failure: Failure)

  predicate IsRispondi(req: Request) {
    req.Post? && req.action == Some("rispondi")
  }

  predicate IsProssima(req: Request) {
    req.Post? && req.action == Some("prossima")
  }

  /** A session just started on the drawn keys `scelte`. */
  function Fresh(scelte: seq<string>): (st: State)
    ensures st.scelte == scelte
    ensures st.indice == 0 && st.corrette == 0 && st.errate == 0 && !st.mostraRisultato
  {
    State(scelte, 0, 0, 0, false)
  }

  /**
   The end-of-quiz test: the quiz is over once the cursor has left the drawn
   keys. Until then there is a current question; an empty selection is over
   from the start.
   */
  predicate Finished(st: State)
    ensures !Finished(st) ==> 0 <= st.indice < |st.scelte|
    ensures st.scelte == [] ==> Finished(st)
  {
    st.indice >= |st.scelte|
  }

  /** A submitted option is right exactly when it is present and equal to the stored one. */
  function Grade(risposta: Option<string>, giusta: string): (ok: bool)
    ensures ok <==> risposta.Some? && risposta.value == giusta
    ensures risposta.None? ==> !ok
  {
    risposta == Some(giusta)
  }

  /**
   The action part of a request. `rispondi` grades the current question and
   raises when the cursor is past the end or the key left the bank;
   `prossima` moves the cursor with no upper bound; anything else changes nothing.
   */
  function Act(st: State, bank: Bank, req: Request): (r: Outcome)
    // rispondi: fails only past the end or on a key missing from the bank
    ensures IsRispondi(req) && Finished(st) ==> r == Raised(IndexError)
    ensures IsRispondi(req) && !Finished(st) && st.scelte[st.indice] !in bank ==>
      r == Raised(KeyError(st.scelte[st.indice]))
    ensures IsRispondi(req) && !Finished(st) && st.scelte[st.indice] in bank ==> r.Done?
    // rispondi: exactly one counter goes up by one, the right one iff the answer matches
    ensures IsRispondi(req) && r.Done? ==>
      && r.st.corrette + r.st.errate == st.corrette + st.errate + 1
      && (r.st.corrette == st.corrette + 1 <==>
            req.risposta == Some(bank[st.scelte[st.indice]].giusta))
      && (r.st.errate == st.errate + 1 <==>
            req.risposta != Some(bank[st.scelte[st.indice]].giusta))
      && r.st.mostraRisultato
      && r.st.indice == st.indice && r.st.scelte == st.scelte
      && r.fb.selezionata == req.risposta
      && r.fb.corretto == Some(r.st.corrette == st.corrette + 1)
    // prossima: the cursor moves by one and the outcome is hidden again
    ensures IsProssima(req) ==>
      && r.Done? && r.fb == NoFeedback
      && r.st.indice == st.indice + 1 && !r.st.mostraRisultato
      && r.st.scelte == st.scelte
      && r.st.corrette == st.corrette && r.st.errate == st.errate
    // any other request leaves the session as it was
    ensures !IsRispondi(req) && !IsProssima(req) ==> r == Done(st, NoFeedback)
  {
    if IsRispondi(req) then
      if st.indice >= |st.scelte| then Raised(IndexError)
      else
        var chiave := st.scelte[st.indice];
        if chiave !in bank then Raised(KeyError(chiave))
        else
          var corretto := Grade(req.risposta, bank[chiave].giusta);
          var next :=
            if corretto then st.(corrette := st.corrette + 1, mostraRisultato := true)
            else st.(errate := st.errate + 1, mostraRisultato := true);
          Done(next, Feedback(req.risposta, Some(corretto)))
    else if IsProssima(req) then
      Done(st.(indice := st.indice + 1, mostraRisultato := false), NoFeedback)
    else
      Done(st, NoFeedback)
  }

  /**
   The page for the session after the action: the closing page with the two
   counters once the quiz is over, otherwise the current question, its
   number out of the total, and the right option only while the outcome is shown.
   */
  function Render(st: State, bank: Bank, fb: Feedback): (r: Response)
    ensures r.FinalPage? <==> Finished(st)
    ensures r.FinalPage? ==> r.corrette == st.corrette && r.errate == st.errate
    ensures r.ServerError? <==> !Finished(st) && st.scelte[st.indice] !in bank
    ensures r.ServerError? ==> r.failure == KeyError(st.scelte[st.indice])
    ensures r.QuestionPage? ==>
      && r.numero == st.indice + 1 && r.totale == |st.scelte|
      && 1 <= r.numero <= r.totale
      && r.chiave == st.scelte[st.indice] && r.chiave in bank
      && r.corrette == st.corrette && r.errate == st.errate
      && r.domanda == bank[r.chiave].domanda && r.risposte == bank[r.chiave].risposte
      && (r.giusta.Some? <==> st.mostraRisultato)
      && (r.giusta.Some? ==> r.giusta.value == bank[r.chiave].giusta)
      && r.mostraRisultato == st.mostraRisultato
      && r.selezionata == fb.selezionata && r.corretto == fb.corretto
  {
    if st.indice >= |st.scelte| then FinalPage(st.corrette, st.errate)
    else
      var chiave := st.scelte[st.indice];
      if chiave !in bank then ServerError(KeyError(chiave))
      else
        var q := bank[chiave];
        QuestionPage(
          st.indice + 1, |st.scelte|, st.corrette, st.errate,
          q.domanda, q.risposte, chiave,
          if st.mostraRisultato then Some(q.giusta) else None,
          fb.selezionata, fb.corretto, st.mostraRisultato)
  }

  /** The session a request works on: the stored one, or a fresh one on `drawn`. */
  function Start(session: Option<State>, drawn: seq<string>): (st: State)
    ensures session.Some? ==> st == session.value
    ensures session.None? ==> st == Fresh(drawn)
  {
    if session.Some? then session.value else Fresh(drawn)
  }

  /**
   A whole request against a session that may not have started: the lazy
   start on `drawn` (used only when there is no session yet), then the
   action, then the page. Returns the session afterwards and the page.
   A failing action leaves the session as the start left it.
   */
  function Serve(session: Option<State>, drawn: seq<string>, bank: Bank, req: Request): (r: (State, Response))
    ensures r.0 == Next(Start(session, drawn), bank, req)
    ensures session.Some? ==> r.0.scelte == session.value.scelte
    ensures session.None? ==> r.0.scelte == drawn
    ensures IsRispondi(req) && Finished(Start(session, drawn)) ==> r.1 == ServerError(IndexError)
    ensures !r.1.ServerError? ==> (r.1.FinalPage? <==> Finished(r.0))
    ensures r.1.FinalPage? ==> r.1.corrette == r.0.corrette && r.1.errate == r.0.errate
    ensures r.1.QuestionPage? ==> r.1.numero == r.0.indice + 1 && r.1.totale == |r.0.scelte|
  {
    var st0 := Start(session, drawn);
    match Act(st0, bank, req)
    case Raised(f) => (st0, ServerError(f))
    case Done(st1, fb) => (st1, Render(st1, bank, fb))
  }

  /**
   The session after a request on a started session. A request that raises
   leaves it as it was; no request re-draws the keys or moves the cursor or a
   counter back.
   */
  function Next(st: State, bank: Bank, req: Request): (r: State)
    ensures Act(st, bank, req).Raised? ==> r == st
    ensures r.scelte == st.scelte
    ensures r.indice >= st.indice && r.corrette >= st.corrette && r.errate >= st.errate
  {
    match Act(st, bank, req)
    case Raised(_) => st
    case Done(st1, _) => st1
  }

  /** The session after a sequence of requests, none of them a reset. */
  function Run(st: State, bank: Bank, reqs: seq<Request>): State
    decreases |reqs|
  {
    if reqs == [] then st
    else Run(Next(st, bank, reqs[0]), bank, reqs[1..])
  }

  /** How many of `reqs` were `rispondi` requests that got graded. */
  function Graded(st: State, bank: Bank, reqs: seq<Request>): nat
    decreases |reqs|
  {
    if reqs == [] then 0
    else
      (if IsRispondi(reqs[0]) && Act(st, bank, reqs[0]).Done? then 1 else 0)
      + Graded(Next(st, bank, reqs[0]), bank, reqs[1..])
  }
}
