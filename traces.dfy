/**
 What holds of a started quiz session over any sequence of requests that
 contains no reset: the drawn keys never change, the cursor and the counters
 only grow, the counters add up to the graded answers, and a finished quiz
 stays finished with its score frozen.
 */
module QuizTraces {
  import opened Wrappers
  import opened QuestionBank
  import opened QuizState

  /** `k` copies of the same request. */
  function Repeat(req: Request, k: nat): (r: seq<Request>)
    ensures |r| == k
    ensures forall i :: 0 <= i < k ==> r[i] == req
  {
    if k == 0 then [] else [req] + Repeat(req, k - 1)
  }

  /** Over a whole trace the drawn keys stay put and the cursor and counters only grow. */
  lemma {:induction false} RunMonotone(st: State, bank: Bank, reqs: seq<Request>)
    ensures Run(st, bank, reqs).scelte == st.scelte
    ensures Run(st, bank, reqs).indice >= st.indice
    ensures Run(st, bank, reqs).corrette >= st.corrette
    ensures Run(st, bank, reqs).errate >= st.errate
    decreases |reqs|
  {
    if reqs != [] {
      RunMonotone(Next(st, bank, reqs[0]), bank, reqs[1..]);
    }
  }

  /** The selection a quiz started with is still a valid one for the same bank after any trace. */
  lemma {:induction false} RunKeepsSelection(st: State, bank: Bank, reqs: seq<Request>)
    requires ValidSelection(bank, st.scelte)
    ensures ValidSelection(bank, Run(st, bank, reqs).scelte)
    ensures Distinct(Run(st, bank, reqs).scelte)
    ensures forall i :: 0 <= i < |Run(st, bank, reqs).scelte| ==> IsDigitKey(Run(st, bank, reqs).scelte[i])
  {
    RunMonotone(st, bank, reqs);
  }

  /** The two counters together grow by exactly the number of graded `rispondi` requests. */
  lemma {:induction false} RunCounters(st: State, bank: Bank, reqs: seq<Request>)
    ensures Run(st, bank, reqs).corrette + Run(st, bank, reqs).errate
         == st.corrette + st.errate + Graded(st, bank, reqs)
    decreases |reqs|
  {
    if reqs != [] {
      RunCounters(Next(st, bank, reqs[0]), bank, reqs[1..]);
    }
  }

  /**
   A fresh session's counters add up to the `rispondi` requests graded since
   it started: the counter invariant of the session.
   */
  lemma FreshCounters(scelte: seq<string>, bank: Bank, reqs: seq<Request>)
    ensures Run(Fresh(scelte), bank, reqs).corrette + Run(Fresh(scelte), bank, reqs).errate
         == Graded(Fresh(scelte), bank, reqs)
  {
    RunCounters(Fresh(scelte), bank, reqs);
  }

  /**
   Once the cursor is past the last key, nothing but a reset changes the
   score: `rispondi` raises, `prossima` only moves the cursor further.
   */
  lemma {:induction false} FinishedStays(st: State, bank: Bank, reqs: seq<Request>)
    requires Finished(st)
    ensures Finished(Run(st, bank, reqs))
    ensures Run(st, bank, reqs).corrette == st.corrette
    ensures Run(st, bank, reqs).errate == st.errate
    ensures Graded(st, bank, reqs) == 0
    decreases |reqs|
  {
    if reqs != [] {
      FinishedStays(Next(st, bank, reqs[0]), bank, reqs[1..]);
    }
  }

  /**
   There is no once-per-question guard: `k` answers to the same question
   count `k` times, all on the same counter, and the cursor does not move.
   */
  lemma {:induction false} RepeatedAnswers(st: State, bank: Bank, risposta: Option<string>, k: nat)
    requires !Finished(st) && st.scelte[st.indice] in bank
    ensures var after := Run(st, bank, Repeat(Post(Some("rispondi"), risposta), k));
      var right := risposta == Some(bank[st.scelte[st.indice]].giusta);
      && after.scelte == st.scelte && after.indice == st.indice
      && after.corrette == st.corrette + (if right then k else 0)
      && after.errate == st.errate + (if right then 0 else k)
      && after.mostraRisultato == (k > 0 || st.mostraRisultato)
    ensures Graded(st, bank, Repeat(Post(Some("rispondi"), risposta), k)) == k
    decreases k
  {
    if k > 0 {
      var req := Post(Some("rispondi"), risposta);
      var reqs := Repeat(req, k);
      assert reqs[0] == req && reqs[1..] == Repeat(req, k - 1);
      RepeatedAnswers(Next(st, bank, req), bank, risposta, k - 1);
    }
  }

  /** `k` times `prossima` moves the cursor by `k` and touches nothing else but the shown flag. */
  lemma {:induction false} RepeatedNext(st: State, bank: Bank, k: nat)
    ensures var after := Run(st, bank, Repeat(Post(Some("prossima"), None), k));
      && after.scelte == st.scelte && after.indice == st.indice + k
      && after.corrette == st.corrette && after.errate == st.errate
      && after.mostraRisultato == (k == 0 && st.mostraRisultato)
    decreases k
  {
    if k > 0 {
      var req := Post(Some("prossima"), None);
      var reqs := Repeat(req, k);
      assert reqs[0] == req && reqs[1..] == Repeat(req, k - 1);
      RepeatedNext(Next(st, bank, req), bank, k - 1);
    }
  }

  /**
   A fresh session on a full selection reaches the closing page after
   exactly one `prossima` per drawn key, and not before.
   */
  lemma QuizEndsAfterEveryQuestion(scelte: seq<string>, bank: Bank, k: nat)
    ensures Finished(Run(Fresh(scelte), bank, Repeat(Post(Some("prossima"), None), k))) <==> k >= |scelte|
  {
    RepeatedNext(Fresh(scelte), bank, k);
  }
}
