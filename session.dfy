/**
 The per-client session object the request handler mutates in place, and the
 two routes that act on it: the quiz page and the reset.
 */
module QuizSessions {
  import opened Wrappers
  import opened QuestionBank
  import opened QuizState

  /**
   The client's session. `present` tells whether the quiz entries exist at
   all (the handler tests for `scelte`); the other fields are those entries.
   */
  class QuizSession {
    var present: bool
    var scelte: seq<string>
    var indice: nat
    var corrette: nat
    var errate: nat
    var mostraRisultato: bool
    // `rispondi` requests graded since the quiz was drawn
    ghost var answered: nat

    /** A started session draws distinct digit keys and counts every graded answer once. */
    ghost predicate Valid()
      reads this
    {
      present ==>
        && Distinct(scelte)
        && (forall i :: 0 <= i < |scelte| ==> IsDigitKey(scelte[i]))
        && corrette + errate == answered
    }

    /** The session as a value, or None when it holds no quiz. */
    function Snapshot(): (s: Option<State>)
      reads this
      ensures s.Some? <==> present
    {
      if present then Some(State(scelte, indice, corrette, errate, mostraRisultato)) else None
    }

    /** A new client starts with an empty session. */
    constructor ()
      ensures Valid() && Snapshot() == None
    {
      present := false;
      scelte, indice, corrette, errate, mostraRisultato := [], 0, 0, 0, false;
      answered := 0;
    }

    /** The reset route: every entry is dropped, so the next request draws a new quiz. */
    method Reset()
      modifies this
      ensures Valid() && Snapshot() == None
    {
      present := false;
      scelte, indice, corrette, errate, mostraRisultato := [], 0, 0, 0, false;
      answered := 0;
    }

    /**
     The action part of the quiz route on a session that holds a quiz:
     `rispondi` grades the current question, `prossima` moves the cursor,
     anything else changes nothing. A failure is reported in `raised` and
     leaves the session untouched.
     */
    method Apply(bank: Bank, req: Request) returns (raised: Option<Failure>, fb: Feedback)
      requires Valid() && present
      modifies this
      ensures Valid() && present && scelte == old(scelte)
      ensures match Act(old(Snapshot()).value, bank, req)
        case Raised(f) => raised == Some(f) && Snapshot() == old(Snapshot())
        case Done(st1, fb1) => raised == None && fb == fb1 && Snapshot() == Some(st1)
      ensures answered == old(answered)
        + (if IsRispondi(req) && Act(old(Snapshot()).value, bank, req).Done? then 1 else 0)
    {
      fb := NoFeedback;
      raised := None;
      if req.Post? {
        if req.action == Some("rispondi") {
          if indice >= |scelte| {
            return Some(IndexError), fb;
          }
          var chiave := scelte[indice];
          if chiave !in bank {
            return Some(KeyError(chiave)), fb;
          }
          var ok := req.risposta == Some(bank[chiave].giusta);
          fb := Feedback(req.risposta, Some(ok));
          if ok {
            corrette := corrette + 1;
          } else {
            errate := errate + 1;
          }
          answered := answered + 1;
          mostraRisultato := true;
        } else if req.action == Some("prossima") {
          indice := indice + 1;
          mostraRisultato := false;
        }
      }
    }

    /**
     The page the quiz route answers with: the closing page with both
     counters once the cursor has left the keys, otherwise the current
     question, with its right option only while the outcome is shown.
     */
    method Page(bank: Bank, fb: Feedback) returns (resp: Response)
      requires present
      ensures resp == Render(Snapshot().value, bank, fb)
      ensures resp.FinalPage? <==> indice >= |scelte|
      ensures resp.QuestionPage? ==>
        resp.numero == indice + 1 && resp.totale == |scelte| && (resp.giusta.Some? <==> mostraRisultato)
    {
      if indice >= |scelte| {
        return FinalPage(corrette, errate);
      }
      var chiave := scelte[indice];
      if chiave !in bank {
        return ServerError(KeyError(chiave));
      }
      var q := bank[chiave];
      resp := QuestionPage(
        indice + 1, |scelte|, corrette, errate,
        q.domanda, q.risposte, chiave,
        if mostraRisultato then Some(q.giusta) else None,
        fb.selezionata, fb.corretto, mostraRisultato);
    }

    /**
     The quiz route. With no quiz in the session it first draws up to 40
     distinct digit keys of `bank` and zeroes the cursor and counters; a
     session that holds a quiz is never re-drawn. Then it applies the
     request's action and answers with the page for the new state, or with
     the error the action or the page raised.
     */
    method Handle(bank: Bank, req: Request) returns (resp: Response)
      requires Valid()
      modifies this
      ensures Valid() && present
      ensures old(present) ==> scelte == old(scelte)
      ensures !old(present) ==> ValidSelection(bank, scelte)
      ensures (Snapshot().value, resp) == Serve(old(Snapshot()), scelte, bank, req)
      ensures answered == (if old(present) then old(answered) else 0)
        + (if IsRispondi(req) && Act(Start(old(Snapshot()), scelte), bank, req).Done? then 1 else 0)
    {
      if !present {
        var drawn := Sample(EligibleKeys(bank), QuizLength);
        present := true;
        scelte, indice, corrette, errate, mostraRisultato := drawn, 0, 0, 0, false;
        answered := 0;
      }
      var raised, fb := Apply(bank, req);
      if raised.Some? {
        return ServerError(raised.value);
      }
      resp := Page(bank, fb);
    }
  }

  /**
   A client that resets and comes back gets a new quiz: no answers counted,
   the first question shown, and its outcome hidden.
   */
  method ResetStartsOver(session: QuizSession, bank: Bank) returns (resp: Response)
    requires session.Valid()
    modifies session
    ensures session.Valid()
    ensures session.Snapshot() == Some(Fresh(session.scelte))
    ensures ValidSelection(bank, session.scelte)
    ensures resp.FinalPage? <==> session.scelte == []
    ensures session.scelte != [] ==> resp.QuestionPage?
    ensures resp.QuestionPage? ==>
      resp.numero == 1 && resp.giusta == None && resp.corrette == 0 && resp.errate == 0
  {
    session.Reset();
    resp := session.Handle(bank, Get);
    assert EligibleKeys(bank) <= bank.Keys;
    assert session.scelte != [] ==> session.scelte[0] in EligibleKeys(bank);
  }
}
