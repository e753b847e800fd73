/** The identifier (cédula) validator of utils/validators.py. */
module Validators {
  import opened Text

  const MinDigits := 6
  const MaxDigits := 10

  const MsgVacia := "La cédula no puede estar vacía"
  const MsgSoloNumeros := "La cédula debe contener solo números"
  const MsgLongitud := "La cédula debe tener entre 6 y 10 dígitos"

  /** The `(es_valida, mensaje_error)` pair the validator returns. */
  datatype Validation = Validation(valid: bool, message: string)

  /** A well-formed identifier: between six and ten digits, nothing else. */
  ghost predicate IsCedula(s: string) {
    MinDigits <= |s| <= MaxDigits && forall i :: 0 <= i < |s| ==> IsDigit(s[i])
  }

  /** `validar_cedula`: strip, then check emptiness, digits and length, in that order;
      the first failing check decides the message. */
  function ValidarCedula(cedula: string): (r: Validation)
    ensures r.valid <==> IsCedula(Strip(cedula))
    ensures r.valid ==> r.message == ""
    ensures Strip(cedula) == [] ==> r == Validation(false, MsgVacia)
    ensures (exists i :: 0 <= i < |Strip(cedula)| && !IsDigit(Strip(cedula)[i]))
              ==> r == Validation(false, MsgSoloNumeros)
    ensures (&& Strip(cedula) != []
             && (forall i :: 0 <= i < |Strip(cedula)| ==> IsDigit(Strip(cedula)[i]))
             && !(MinDigits <= |Strip(cedula)| <= MaxDigits))
              ==> r == Validation(false, MsgLongitud)
  {
    var c := Strip(cedula);
    if c == [] then
      Validation(false, MsgVacia)
    else if !IsDigits(c) then
      Validation(false, MsgSoloNumeros)
    else if |c| < MinDigits || |c| > MaxDigits then
      Validation(false, MsgLongitud)
    else
      Validation(true, "")
  }

  /** Whitespace around the identifier never changes the verdict, whether it is
      already there or added: validating is the same as validating the stripped string. */
  lemma ValidarIgnoresSurroundingSpace(p: string, cedula: string, q: string)
    requires AllSpace(p) && AllSpace(q)
    ensures ValidarCedula(p + cedula + q) == ValidarCedula(cedula)
    ensures ValidarCedula(Strip(cedula)) == ValidarCedula(cedula)
  {
    StripPadding(p, cedula, q);
    StripIdempotent(cedula);
  }

  /** The rules are checked in the order empty, digits, length: each message is reported
      exactly when its rule is the first one the stripped string breaks. */
  lemma ValidarReportsFirstBrokenRule(cedula: string)
    ensures ValidarCedula(cedula).message == MsgVacia <==> Strip(cedula) == []
    ensures ValidarCedula(cedula).message == MsgSoloNumeros <==>
              Strip(cedula) != [] && !IsDigits(Strip(cedula))
    ensures ValidarCedula(cedula).message == MsgLongitud <==>
              IsDigits(Strip(cedula)) && !(MinDigits <= |Strip(cedula)| <= MaxDigits)
    ensures !ValidarCedula(cedula).valid <==>
              ValidarCedula(cedula).message in {MsgVacia, MsgSoloNumeros, MsgLongitud}
  {
  }

  /** Six digits are accepted, also when padded with whitespace. */
  lemma ValidarAcceptsSixDigits()
    ensures ValidarCedula("123456") == Validation(true, "")
    ensures ValidarCedula(" 123456\n") == Validation(true, "")
  {
    StripUnpadded("123456");
    assert IsCedula("123456");
    assert AllSpace(" ") && AllSpace("\n");
    ValidarIgnoresSurroundingSpace(" ", "123456", "\n");
    assert " " + "123456" + "\n" == " 123456\n";
  }

  /** "12a" breaks both the digit rule and the length rule, and is reported for digits. */
  lemma ValidarReportsDigitsBeforeLength()
    ensures ValidarCedula("12a") == Validation(false, MsgSoloNumeros)
    ensures ValidarCedula("12a456") == Validation(false, MsgSoloNumeros)
  {
    StripUnpadded("12a");
    assert !IsDigit("12a"[2]);
    StripUnpadded("12a456");
    assert !IsDigit("12a456"[2]);
  }

  /** Five and eleven digits are rejected for their length. */
  lemma ValidarReportsLength()
    ensures ValidarCedula("12345") == Validation(false, MsgLongitud)
    ensures ValidarCedula("12345678901") == Validation(false, MsgLongitud)
  {
    StripUnpadded("12345");
    StripUnpadded("12345678901");
  }

  /** Empty and whitespace-only input is reported as empty. */
  lemma ValidarReportsEmpty(cedula: string)
    requires AllSpace(cedula)
    ensures ValidarCedula(cedula) == Validation(false, MsgVacia)
  {
    StripUnpadded("");
    StripPadding(cedula, "", "");
    assert cedula + "" + "" == cedula;
  }
}
