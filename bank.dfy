/** Option type for values the request or the session may lack. */
module Wrappers {
  datatype Option<+T> = None | Some(value: T)
}

/**
 The question bank read by the quiz handler, the filter that picks the keys a
 quiz may draw from, and the random draw of a quiz's questions.
 */
module QuestionBank {

  /** One entry of the bank: its prompt, its answer options and the right one. */
  datatype Question = Question(domanda: string, risposte: seq<string>, giusta: string)

  /** The bank as it is read on a request: question key to question. */
  type Bank = map<string, Question>

  /** How many questions a quiz draws at most. */
  const QuizLength: nat := 40

  /** A decimal digit. `str.isdigit` also accepts other Unicode digits; only ASCII is modelled. */
  predicate IsDigitChar(c: char) {
    '0' <= c <= '9'
  }

  /** Every character of `s` is a digit, checked one character at a time. */
  function AllDigits(s: string): (r: bool)
    ensures r <==> forall i :: 0 <= i < |s| ==> IsDigitChar(s[i])
  {
    if s == [] then true
    else IsDigitChar(s[0]) && AllDigits(s[1..])
  }

  /** The key filter of the handler: a key qualifies when it is non-empty and made of digits only. */
  function IsDigitKey(k: string): (r: bool)
    ensures r ==> |k| > 0 && IsDigitChar(k[0])
    ensures r <==> k != [] && forall i :: 0 <= i < |k| ==> IsDigitChar(k[i])
  {
    k != [] && AllDigits(k)
  }

  /** The keys of the bank that pass the filter. */
  function EligibleKeys(bank: Bank): (r: set<string>)
    ensures r <= bank.Keys
    ensures forall k :: k in r ==> IsDigitKey(k)
    ensures forall k :: k in bank && IsDigitKey(k) ==> k in r
  {
    set k | k in bank && IsDigitKey(k)
  }

  /** No key occurs twice in `s`. */
  predicate Distinct(s: seq<string>) {
    forall i, j :: 0 <= i < j < |s| ==> s[i] != s[j]
  }

  function Min(a: nat, b: nat): nat {
    if a <= b then a else b
  }

  /**
   What a draw of `n` keys without replacement from `pool` may return: distinct
   keys of the pool, as many as asked for or the whole pool when it is smaller.
   */
  predicate IsSample(pool: set<string>, n: nat, s: seq<string>) {
    && |s| == Min(n, |pool|)
    && Distinct(s)
    && forall i :: 0 <= i < |s| ==> s[i] in pool
  }

  /** A selection the quiz may start with for `bank`. */
  predicate ValidSelection(bank: Bank, s: seq<string>) {
    IsSample(EligibleKeys(bank), QuizLength, s)
  }

  /**
   Draws `n` keys from `pool` without replacement. Which key is drawn at each
   step is left open, so every outcome of a random draw is covered.
   */
  method Sample(pool: set<string>, n: nat) returns (s: seq<string>)
    ensures IsSample(pool, n, s)
    ensures pool == {} ==> s == []
  {
    var k := Min(n, |pool|);
    var rest := pool;
    s := [];
    while |s| < k
      invariant |s| <= k
      invariant rest <= pool
      invariant |rest| == |pool| - |s|
      invariant Distinct(s)
      invariant forall i :: 0 <= i < |s| ==> s[i] in pool && s[i] !in rest
    {
      var x :| x in rest;
      s := s + [x];
      rest := rest - {x};
    }
  }
}
