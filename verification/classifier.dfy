/** `_analizar_resultado` of main.py: maps the text the server returned to an outcome. */
module Classifier {
  import opened Optional
  import opened Text
  import opened Results

  /** The phrases looked for, in the lower case the comparison uses. */
  const NoDesignado := "no ha sido designado"
  const NoFigura := "no figura"
  const Designado := "ha sido designado"
  const PorFavorDigite := "por favor digite"

  const MsgSinRespuesta := "No se recibió respuesta del servidor"
  const MsgNoProcesado := "El formulario no se procesó correctamente"
  const DetalleCaptcha := "Posible problema con el captcha o la sesión"
  const MsgRecibida := "Respuesta recibida del servidor"

  function MsgNoJurado(cedula: string): string {
    "La cédula " + cedula + " NO ha sido designada como jurado"
  }

  function MsgJurado(cedula: string): string {
    "¡ATENCIÓN! La cédula " + cedula + " SÍ es jurado de votación"
  }

  /** Classifies the server text: empty text first, then the negative phrases, the
      positive phrase, the form-not-processed echo, and finally the generic reply. */
  function AnalizarResultado(cedula: string, texto: string): (r: ConsultaResult)
    ensures Valid(r)
    ensures !r.exito ==> r.esJurado.None? && r.cedula.None?
    ensures r.exito ==> r.cedula == Some(cedula) && r.detalle == Some(texto) && texto != ""
  {
    if texto == "" then
      Make(exito := false, mensaje := MsgSinRespuesta)
    else
      var l := Lower(texto);
      if Contains(l, NoDesignado) || Contains(l, NoFigura) then
        Make(exito := true, esJurado := Some(false), mensaje := MsgNoJurado(cedula),
             detalle := Some(texto), cedula := Some(cedula))
      else if Contains(l, Designado) then
        Make(exito := true, esJurado := Some(true), mensaje := MsgJurado(cedula),
             detalle := Some(texto), cedula := Some(cedula))
      else if Contains(l, PorFavorDigite) then
        Make(exito := false, mensaje := MsgNoProcesado, detalle := Some(DetalleCaptcha))
      else
        Make(exito := true, mensaje := MsgRecibida, detalle := Some(texto), cedula := Some(cedula))
  }

  /** Case-insensitive occurrence of a lower-case phrase. */
  ghost predicate Mentions(texto: string, phrase: string) {
    Occurs(Lower(texto), phrase)
  }

  /** The positive phrase is part of the first negative one, so any text the first
      negative branch takes also mentions the positive phrase. */
  lemma NegativeMentionsPositive(texto: string)
    requires Mentions(texto, NoDesignado)
    ensures Mentions(texto, Designado)
  {
    assert OccursAt(NoDesignado, Designado, 3);
    OccursTransitive(Lower(texto), NoDesignado, Designado);
  }

  /** The outcome of every branch, stated with occurrence of the phrases rather than
      with the search that finds them. */
  lemma AnalizarBranches(cedula: string, texto: string)
    ensures texto == "" ==> AnalizarResultado(cedula, texto) == Make(false, MsgSinRespuesta)
    ensures texto != "" && (Mentions(texto, NoDesignado) || Mentions(texto, NoFigura)) ==>
      AnalizarResultado(cedula, texto)
        == ConsultaResult(true, MsgNoJurado(cedula), Some(false), Some(texto), Some(cedula))
    ensures texto != "" && Mentions(texto, Designado)
            && !Mentions(texto, NoDesignado) && !Mentions(texto, NoFigura) ==>
      AnalizarResultado(cedula, texto)
        == ConsultaResult(true, MsgJurado(cedula), Some(true), Some(texto), Some(cedula))
    ensures texto != "" && Mentions(texto, PorFavorDigite)
            && !Mentions(texto, Designado) && !Mentions(texto, NoFigura) ==>
      AnalizarResultado(cedula, texto)
        == ConsultaResult(false, MsgNoProcesado, None, Some(DetalleCaptcha), None)
    ensures texto != "" && !Mentions(texto, PorFavorDigite)
            && !Mentions(texto, Designado) && !Mentions(texto, NoFigura) ==>
      AnalizarResultado(cedula, texto)
        == ConsultaResult(true, MsgRecibida, Some(false), Some(texto), Some(cedula))
  {
    var l := Lower(texto);
    ContainsIff(l, NoDesignado);
    ContainsIff(l, NoFigura);
    ContainsIff(l, Designado);
    ContainsIff(l, PorFavorDigite);
    if Mentions(texto, NoDesignado) {
      NegativeMentionsPositive(texto);
    }
  }

  /** Precedence: a text with a negative phrase is read as "not designated" although it
      also mentions the positive phrase. */
  lemma NegativePhraseWins(cedula: string, texto: string)
    requires Mentions(texto, NoDesignado)
    ensures Mentions(texto, Designado)
    ensures AnalizarResultado(cedula, texto).exito
    ensures AnalizarResultado(cedula, texto).esJurado == Some(false)
  {
    NegativeMentionsPositive(texto);
    assert texto != "" by {
      var i :| OccursAt(Lower(texto), NoDesignado, i);
    }
    AnalizarBranches(cedula, texto);
  }

  /** The readings, summarised: the outcome says "designated" exactly when the positive
      phrase and neither negative phrase is mentioned, and it fails exactly on empty
      text or on the form-not-processed echo without any verdict phrase. */
  lemma AnalizarSummary(cedula: string, texto: string)
    ensures AnalizarResultado(cedula, texto).esJurado == Some(true) <==>
      texto != "" && Mentions(texto, Designado)
      && !Mentions(texto, NoDesignado) && !Mentions(texto, NoFigura)
    ensures !AnalizarResultado(cedula, texto).exito <==>
      texto == "" || (Mentions(texto, PorFavorDigite)
                      && !Mentions(texto, Designado) && !Mentions(texto, NoFigura))
  {
    AnalizarBranches(cedula, texto);
    if Mentions(texto, NoDesignado) {
      NegativeMentionsPositive(texto);
    }
  }

  // Four example texts: the phrases in each, and then the reading of every text with
  // the given lower-case form.

  lemma NoFiguraPhrases(l: string)
    requires l == "la cédula no figura en la base"
    ensures Occurs(l, NoFigura)
  {
    assert OccursAt(l, NoFigura, 10);
  }

  lemma DesignadoPhrases(l: string)
    requires l == "usted ha sido designado jurado"
    ensures Occurs(l, Designado) && !Occurs(l, NoDesignado) && !Occurs(l, NoFigura)
  {
    assert OccursAt(l, Designado, 6);
    PairAbsent(l, NoFigura, 0);
    PairAbsent(l, NoDesignado, 0);
  }

  lemma PorFavorPhrases(l: string)
    requires l == "por favor digite el captcha"
    ensures Occurs(l, PorFavorDigite) && !Occurs(l, Designado) && !Occurs(l, NoFigura)
  {
    assert OccursAt(l, PorFavorDigite, 0);
    PairAbsent(l, Designado, 3);
    PairAbsent(l, NoFigura, 3);
  }

  lemma UnrelatedPhrases(l: string)
    requires l == "some unrelated server text"
    ensures !Occurs(l, PorFavorDigite) && !Occurs(l, Designado) && !Occurs(l, NoFigura)
  {
    PairAbsent(l, PorFavorDigite, 0);
    PairAbsent(l, Designado, 0);
    PairAbsent(l, NoFigura, 3);
  }

  lemma NoFiguraLowered(cedula: string, texto: string)
    requires Lower(texto) == "la cédula no figura en la base"
    ensures AnalizarResultado(cedula, texto)
              == ConsultaResult(true, MsgNoJurado(cedula), Some(false), Some(texto), Some(cedula))
  {
    NoFiguraPhrases(Lower(texto));
    assert |texto| == |Lower(texto)| > 0;
    AnalizarBranches(cedula, texto);
  }

  lemma DesignadoLowered(cedula: string, texto: string)
    requires Lower(texto) == "usted ha sido designado jurado"
    ensures AnalizarResultado(cedula, texto)
              == ConsultaResult(true, MsgJurado(cedula), Some(true), Some(texto), Some(cedula))
  {
    DesignadoPhrases(Lower(texto));
    assert |texto| == |Lower(texto)| > 0;
    AnalizarBranches(cedula, texto);
  }

  lemma PorFavorLowered(cedula: string, texto: string)
    requires Lower(texto) == "por favor digite el captcha"
    ensures AnalizarResultado(cedula, texto)
              == ConsultaResult(false, MsgNoProcesado, None, Some(DetalleCaptcha), None)
  {
    PorFavorPhrases(Lower(texto));
    assert |texto| == |Lower(texto)| > 0;
    AnalizarBranches(cedula, texto);
  }

  lemma UnrelatedLowered(cedula: string, texto: string)
    requires Lower(texto) == "some unrelated server text"
    ensures AnalizarResultado(cedula, texto)
              == ConsultaResult(true, MsgRecibida, Some(false), Some(texto), Some(cedula))
  {
    UnrelatedPhrases(Lower(texto));
    assert |texto| == |Lower(texto)| > 0;
    AnalizarBranches(cedula, texto);
  }

  /** Upper-case letters do not hide the positive phrase. */
  lemma UpperCaseDesignadoExample(cedula: string, texto: string)
    requires texto == "Usted HA SIDO DESIGNADO jurado"
    ensures AnalizarResultado(cedula, texto).esJurado == Some(true)
  {
    assert Lower(texto) == "usted ha sido designado jurado";
    DesignadoLowered(cedula, texto);
  }
}
