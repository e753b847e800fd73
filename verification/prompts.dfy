/**
 The two operator dialogues of main.py: `_solicitar_cedula`, the bounded loop that asks
 for an identifier and a confirmation, and `_preguntar_continuar`, the yes/no question
 after each consultation. The operator is the sequence of values `solicitar_entrada`
 returns, one per call, already stripped; once it is used up, every further call meets
 end of input, which `solicitar_entrada` reports as "".
 */
module Prompts {
  import opened Optional
  import opened Text
  import opened Validators

  const MaxIntentos := 3

  /** The answers, in upper case, that `confirmar_accion` and the continue question
      take as yes, and the ones the continue question takes as no. */
  const YesAnswers: seq<string> := ["S", "SI", "Y", "YES"]
  const NoAnswers: seq<string> := ["N", "NO"]

  /** The value of the `i`-th call to `solicitar_entrada`. */
  function Entrada(answers: seq<string>, i: nat): (r: string)
    ensures i >= |answers| ==> r == ""
  {
    if i < |answers| then answers[i] else ""
  }

  /** `confirmar_accion`: the answer, upper-cased, is one of the yes answers. So a yes is
      one to three characters and starts with "s" or "y" in either case; in particular
      "" (end of input, an interrupted prompt) is never a yes. */
  function Confirma(respuesta: string): (yes: bool)
    ensures yes ==> 1 <= |respuesta| <= 3
    ensures yes ==> UpperChar(respuesta[0]) == 'S' || UpperChar(respuesta[0]) == 'Y'
  {
    Upper(respuesta) in YesAnswers
  }

  /** The yes answers in their letter-case variants confirm; "", the no answers, an
      accented "sí" and other text do not. */
  lemma ConfirmaAnswers()
    ensures Confirma("s") && Confirma("Si") && Confirma("y") && Confirma("yEs")
    ensures !Confirma("") && !Confirma("n") && !Confirma("No") && !Confirma("sí") && !Confirma("ok")
  {
    assert Upper("s") == "S" && Upper("Si") == "SI" && Upper("y") == "Y" && Upper("yEs") == "YES";
    assert Upper("No") == "NO" && Upper("n") == "N" && Upper("ok") == "OK";
    assert Upper("sí") == "Sí";
  }

  /** One round of the identifier dialogue, with what the operator typed in it. */
  datatype Attempt =
    | Cancelled                                  // the identifier prompt gave ""
    | Rejected(entry: string, reason: string)    // the validator refused the entry
    | Declined(entry: string, answer: string)    // valid, but not confirmed
    | Accepted(entry: string, answer: string)    // valid and confirmed

  /** The values of `solicitar_entrada` one round consumes. */
  function Reads(a: Attempt): seq<string> {
    match a
    case Cancelled => [""]
    case Rejected(e, _) => [e]
    case Declined(e, r) => [e, r]
    case Accepted(e, r) => [e, r]
  }

  function ReadsAll(log: seq<Attempt>): seq<string> {
    if log == [] then [] else ReadsAll(log[..|log| - 1]) + Reads(log[|log| - 1])
  }

  /** The round ended the way the source decides it on the values it read. */
  predicate Consistent(a: Attempt) {
    match a
    case Cancelled => true
    case Rejected(e, reason) => e != "" && ValidarCedula(e) == Validation(false, reason)
    case Declined(e, r) => e != "" && ValidarCedula(e).valid && !Confirma(r)
    case Accepted(e, r) => e != "" && ValidarCedula(e).valid && Confirma(r)
  }

  /** A round that does not end the dialogue. */
  predicate Retry(a: Attempt) {
    a.Rejected? || a.Declined?
  }

  /** The `n` operator values from position `from` on. */
  function Inputs(answers: seq<string>, from: nat, n: nat): (r: seq<string>)
    ensures |r| == n
  {
    seq(n, k requires 0 <= k < n => Entrada(answers, from + k))
  }

  /** The values up to `pos`, then the next `n`, are the first `pos + n` values. */
  lemma InputsConcat(answers: seq<string>, pos: nat, n: nat)
    ensures Inputs(answers, 0, pos) + Inputs(answers, pos, n) == Inputs(answers, 0, pos + n)
  {
    var l, r, all := Inputs(answers, 0, pos), Inputs(answers, pos, n), Inputs(answers, 0, pos + n);
    forall k | 0 <= k < pos + n
      ensures (l + r)[k] == all[k]
    {
      if k < pos { assert (l + r)[k] == l[k]; } else { assert (l + r)[k] == r[k - pos]; }
    }
  }

  /** A round that reads on from where the log stopped extends the log's reads. */
  lemma ReadsExtend(answers: seq<string>, log: seq<Attempt>, a: Attempt, pos: nat)
    requires ReadsAll(log) == Inputs(answers, 0, pos)
    requires Reads(a) == Inputs(answers, pos, |Reads(a)|)
    ensures ReadsAll(log + [a]) == Inputs(answers, 0, pos + |Reads(a)|)
  {
    assert (log + [a])[..|log|] == log;
    assert ReadsAll(log + [a]) == ReadsAll(log) + Reads(a);
    InputsConcat(answers, pos, |Reads(a)|);
  }

  /** One round of `_solicitar_cedula`, reading the operator's values from position `pos`:
      the identifier, and the confirmation only when the identifier is valid. */
  method Ronda(answers: seq<string>, pos: nat) returns (a: Attempt)
    ensures Consistent(a)
    ensures Reads(a) == Inputs(answers, pos, |Reads(a)|)
    ensures a.Cancelled? <==> Entrada(answers, pos) == ""
  {
    var entrada := Entrada(answers, pos);
    if entrada == "" {
      return Cancelled;
    }
    var verdict := ValidarCedula(entrada);
    if !verdict.valid {
      return Rejected(entrada, verdict.message);
    }
    var respuesta := Entrada(answers, pos + 1);
    if Confirma(respuesta) {
      return Accepted(entrada, respuesta);
    }
    return Declined(entrada, respuesta);
  }

  /** `_solicitar_cedula`: up to three rounds; an empty entry cancels at once, an invalid
      entry or a declined confirmation uses up a round, a confirmed valid entry is
      returned. The log records every round, and its reads are exactly the operator's
      values in order. */
  method SolicitarCedula(answers: seq<string>) returns (cedula: Option<string>, log: seq<Attempt>)
    ensures 1 <= |log| <= MaxIntentos
    ensures forall k :: 0 <= k < |log| ==> Consistent(log[k])
    ensures forall k :: 0 <= k < |log| - 1 ==> Retry(log[k])
    ensures ReadsAll(log) == Inputs(answers, 0, |ReadsAll(log)|)
    ensures cedula.Some? <==> log[|log| - 1].Accepted?
    ensures cedula.Some? ==> cedula.value == log[|log| - 1].entry && ValidarCedula(cedula.value).valid
    ensures cedula.None? ==> log[|log| - 1].Cancelled? || (|log| == MaxIntentos && Retry(log[|log| - 1]))
    ensures Entrada(answers, 0) == "" ==> cedula == None && log == [Cancelled]
  {
    var pos: nat := 0;
    log := [];
    while |log| < MaxIntentos && (log == [] || Retry(log[|log| - 1]))
      invariant |log| <= MaxIntentos
      invariant forall k :: 0 <= k < |log| ==> Consistent(log[k])
      invariant forall k :: 0 <= k < |log| - 1 ==> Retry(log[k])
      invariant ReadsAll(log) == Inputs(answers, 0, pos)
      invariant log == [] ==> pos == 0
      invariant log != [] && Entrada(answers, 0) == "" ==> log == [Cancelled]
    {
      var a := Ronda(answers, pos);
      ReadsExtend(answers, log, a, pos);
      log := log + [a];
      pos := pos + |Reads(a)|;
    }
    var last := log[|log| - 1];
    cedula := if last.Accepted? then Some(last.entry) else None;
  }

  /** An answer the continue question acts on. */
  predicate Decisive(respuesta: string) {
    Upper(respuesta) in YesAnswers || Upper(respuesta) in NoAnswers
  }

  /** `answers[i]` is the first answer the question acts on, when a reply for which
      `acts` holds ends the loop. */
  ghost predicate FirstAt(answers: seq<string>, i: int, acts: string -> bool) {
    && 0 <= i < |answers| && acts(answers[i])
    && forall j :: 0 <= j < i ==> !acts(answers[j])
  }

  /** `_preguntar_continuar` as written: it asks until an answer is in the yes or the
      no list. `None` means the operator's values ran out first: from then on every
      read is end of input, reported as "", which is in neither list, so the loop asks
      for ever. */
  function PreguntarContinuarAsWritten(answers: seq<string>): (r: Option<bool>)
    ensures r.Some? <==> exists i :: 0 <= i < |answers| && Decisive(answers[i])
    ensures r.Some? ==> exists i :: FirstAt(answers, i, Decisive) && r.value == Confirma(answers[i])
  {
    if answers == [] then None
    else if Confirma(answers[0]) then Some(true)
    else if Upper(answers[0]) in NoAnswers then Some(false)
    else
      var r := PreguntarContinuarAsWritten(answers[1..]);
      assert r.Some? ==> exists i :: FirstAt(answers, i, Decisive) && r.value == Confirma(answers[i]) by {
        if r.Some? {
          var i :| FirstAt(answers[1..], i, Decisive) && r.value == Confirma(answers[1..][i]);
          assert FirstAt(answers, i + 1, Decisive);
        }
      }
      assert (exists i :: 0 <= i < |answers[1..]| && Decisive(answers[1..][i]))
             <==> (exists i :: 0 <= i < |answers| && Decisive(answers[i])) by {
        if exists i :: 0 <= i < |answers| && Decisive(answers[i]) {
          var i :| 0 <= i < |answers| && Decisive(answers[i]);
          assert i != 0;
          assert Decisive(answers[1..][i - 1]);
        }
      }
      r
  }

  /** End of input on every read never lets the question return. */
  lemma {:induction false} EndOfInputNeverDecides(n: nat)
    ensures PreguntarContinuarAsWritten(seq(n, i => "")) == None
  {
    var e := seq(n, i => "");
    assert Upper("") == "";
    assert forall i :: 0 <= i < n ==> !Decisive(e[i]);
  }

  /** A reply that ends the corrected question: a listed answer, or "" (end of input or
      an interrupted prompt), which is read as "no", as the identifier prompt reads it
      as a cancellation. */
  predicate Ends(respuesta: string) {
    respuesta == "" || Decisive(respuesta)
  }

  /** `_preguntar_continuar` with "" read as "no": it always returns, with "yes" exactly
      when the first answer it acts on is a yes answer. */
  function PreguntarContinuar(answers: seq<string>): (r: bool)
    ensures r <==> exists i :: FirstAt(answers, i, Ends) && Confirma(answers[i])
  {
    if answers == [] then false
    else if answers[0] == "" then false
    else if Confirma(answers[0]) then true
    else if Upper(answers[0]) in NoAnswers then false
    else
      var r := PreguntarContinuar(answers[1..]);
      assert r <==> exists i :: FirstAt(answers, i, Ends) && Confirma(answers[i]) by {
        if r {
          var i :| FirstAt(answers[1..], i, Ends) && Confirma(answers[1..][i]);
          assert FirstAt(answers, i + 1, Ends);
        }
        if exists i :: FirstAt(answers, i, Ends) && Confirma(answers[i]) {
          var i :| FirstAt(answers, i, Ends) && Confirma(answers[i]);
          assert i != 0;
          assert FirstAt(answers[1..], i - 1, Ends);
        }
      }
      r
  }

  /** Where the question as written returns, the corrected one returns the same answer
      as long as no "" came first; where it never returns, the corrected one says no. */
  lemma {:induction false} PreguntarContinuarAgrees(answers: seq<string>)
    requires forall i :: 0 <= i < |answers| ==> answers[i] != ""
    ensures PreguntarContinuarAsWritten(answers).Some? ==>
              PreguntarContinuar(answers) == PreguntarContinuarAsWritten(answers).value
    ensures PreguntarContinuarAsWritten(answers).None? ==> !PreguntarContinuar(answers)
  {
    if answers != [] && !Decisive(answers[0]) {
      PreguntarContinuarAgrees(answers[1..]);
    }
  }
}
