/** The inference rules. Each rule reads one revealed node's neighbourhood
    and returns an inference result; the only state a rule owns is its pair
    of attempt/success counters. The results are pure functions of the board
    value; `ReglaInferencia.Aplicar` runs them and updates the counters. */
module Reglas {
  import opened Tipos
  import opened Grafo

  /** The closed set of rule variants, in the order the engine registers them. */
  datatype TipoRegla = MinasCompletas | Saturacion | Subconjunto | Patron121

  function Nombre(k: TipoRegla): string {
    match k
    case MinasCompletas => "Minas Completas"
    case Saturacion => "Saturaci\U{F3}n"
    case Subconjunto => "Subconjunto"
    case Patron121 => "Patr\U{F3}n 1-2-1"
  }

  function Prioridad(k: TipoRegla): nat {
    match k
    case MinasCompletas => 1
    case Saturacion => 1
    case Subconjunto => 2
    case Patron121 => 3
  }

  function Categoria(k: TipoRegla): TipoInferencia {
    if k == Patron121 then PATRON_RECONOCIDO else LOGICA_DETERMINISTA
  }

  /** A rule is tried only on a revealed node with a positive label (exactly 2 for the 1-2-1 pattern). */
  predicate EsAplicable(k: TipoRegla, t: Tablero, x: Coordenada)
    requires Bien(t) && EnRango(t, x)
  {
    AplicaA(k, Celda(t, x))
  }

  predicate AplicaA(k: TipoRegla, n: Nodo) {
    n.estado == REVELADA && if k == Patron121 then n.numeroAdyacente == 2 else n.numeroAdyacente > 0
  }

  function Desconocidos(t: Tablero, x: Coordenada): (r: seq<Coordenada>)
    requires Bien(t) && EnRango(t, x)
    ensures forall y :: y in r <==> EnRango(t, y) && Adyacentes(x, y) && Celda(t, y).estado == DESCONOCIDA
    ensures FilaMayor(r) && TodosEnRango(t, r) && |r| == EspaciosLibres(t, x)
  {
    VecinosPorEstado(t, x, DESCONOCIDA)
  }

  /** The facts every successful result shares: an action, a certainty in
      (0, 1] and at least one target, every target a hidden cell. */
  ghost predicate ObjetivosOcultos(t: Tablero, r: ResultadoInferencia)
    requires Bien(t)
  {
    |r.coordenadas| > 0 && r.accion.Some? && 0.0 < r.certeza <= 1.0 &&
    forall y :: y in r.coordenadas ==> EnRango(t, y) && Celda(t, y).estado == DESCONOCIDA
  }

  // ---------------------------------------------------------------------------
  // Complete mines and saturation

  /** Reveal every hidden neighbour once all of the node's mines are flagged. */
  function AplicarMinasCompletas(t: Tablero, x: Coordenada): (r: ResultadoInferencia)
    requires Bien(t) && EnRango(t, x)
    ensures r.exito <==> ContarVecinosPorEstado(t, x, MARCADA) == Celda(t, x).numeroAdyacente && EspaciosLibres(t, x) > 0
    ensures r.exito ==> r.accion == Some(REVELAR) && r.certeza == 1.0 && r.tipo == LOGICA_DETERMINISTA
    ensures r.exito ==> FilaMayor(r.coordenadas)
    ensures r.exito ==>
      forall y :: y in r.coordenadas <==> EnRango(t, y) && Adyacentes(x, y) && Celda(t, y).estado == DESCONOCIDA
    ensures !r.exito ==> r == Fallo(LOGICA_DETERMINISTA)
    ensures r.exito ==> ObjetivosOcultos(t, r)
  {
    var desconocidos := Desconocidos(t, x);
    var marcados := VecinosPorEstado(t, x, MARCADA);
    if |marcados| == Celda(t, x).numeroAdyacente && |desconocidos| > 0 then
      ResultadoInferencia(true, Some(REVELAR), desconocidos, 1.0, LOGICA_DETERMINISTA)
    else
      Fallo(LOGICA_DETERMINISTA)
  }

  /** Flag every hidden neighbour when the remaining mines equal their number. */
  function AplicarSaturacion(t: Tablero, x: Coordenada): (r: ResultadoInferencia)
    requires Bien(t) && EnRango(t, x)
    ensures r.exito <==> MinasRestantes(t, x) == EspaciosLibres(t, x) && EspaciosLibres(t, x) > 0
    ensures r.exito ==> r.accion == Some(MARCAR_MINA) && r.certeza == 1.0 && r.tipo == LOGICA_DETERMINISTA
    ensures r.exito ==> FilaMayor(r.coordenadas)
    ensures r.exito ==>
      forall y :: y in r.coordenadas <==> EnRango(t, y) && Adyacentes(x, y) && Celda(t, y).estado == DESCONOCIDA
    ensures !r.exito ==> r == Fallo(LOGICA_DETERMINISTA)
    ensures r.exito ==> ObjetivosOcultos(t, r)
  {
    var desconocidos := Desconocidos(t, x);
    var minasRestantes := MinasRestantes(t, x);
    if minasRestantes == |desconocidos| && |desconocidos| > 0 then
      ResultadoInferencia(true, Some(MARCAR_MINA), desconocidos, 1.0, LOGICA_DETERMINISTA)
    else
      Fallo(LOGICA_DETERMINISTA)
  }

  /** The two first rules never fire on the same node: one needs no
      remaining mines, the other as many remaining mines as hidden cells. */
  lemma MinasCompletasSaturacionExcluyentes(t: Tablero, x: Coordenada)
    requires Bien(t) && EnRango(t, x)
    ensures !(AplicarMinasCompletas(t, x).exito && AplicarSaturacion(t, x).exito)
  {
  }

  /** A node with no hidden neighbour makes neither rule fire, whatever its flags. */
  lemma SinOcultosNoDispara(t: Tablero, x: Coordenada)
    requires Bien(t) && EnRango(t, x)
    requires EspaciosLibres(t, x) == 0
    ensures !AplicarMinasCompletas(t, x).exito && !AplicarSaturacion(t, x).exito
  {
  }

  // ---------------------------------------------------------------------------
  // Subset rule

  function ComoConjunto(s: seq<Coordenada>): set<Coordenada> {
    set y | y in s
  }

  /** The members of `a` not in `b`, in the order of `a`. */
  function Diferencia(a: seq<Coordenada>, b: seq<Coordenada>): (r: seq<Coordenada>)
    ensures forall y :: y in r <==> y in a && y !in b
    ensures FilaMayor(a) ==> FilaMayor(r)
  {
    if a == [] then []
    else
      var resto := Diferencia(a[1..], b);
      assert FilaMayor(a) ==> FilaMayor(a[1..]) && forall y :: y in resto ==> Antes(a[0], y);
      (if a[0] !in b then [a[0]] else []) + resto
  }

  /** What the subset rule concludes from neighbour `v` of `x`, if anything:
      `v` must be revealed and informative and its hidden set must strictly
      contain that of `x`; the extra cells are all mines when the difference
      of remaining mines equals their number, and all safe when it is 0. */
  function ProbarVecino(t: Tablero, x: Coordenada, v: Coordenada): (p: Option<ResultadoInferencia>)
    requires Bien(t) && EnRango(t, x) && EnRango(t, v)
    ensures p.Some? ==> p.value.exito && p.value.tipo == LOGICA_DETERMINISTA
  {
    var n := Celda(t, v);
    if n.estado != REVELADA || n.numeroAdyacente == 0 then None
    else
      var desconocidosN := Desconocidos(t, x);
      var desconocidosV := Desconocidos(t, v);
      if Incluido(desconocidosN, desconocidosV) && |desconocidosN| != |desconocidosV| then
        var diferencia := Diferencia(desconocidosV, desconocidosN);
        var minasEnDiferencia := MinasRestantes(t, v) - MinasRestantes(t, x);
        if minasEnDiferencia == |diferencia| && minasEnDiferencia > 0 then
          Some(ResultadoInferencia(true, Some(MARCAR_MINA), diferencia, 1.0, LOGICA_DETERMINISTA))
        else if minasEnDiferencia == 0 && |diferencia| > 0 then
          Some(ResultadoInferencia(true, Some(REVELAR), diferencia, 1.0, LOGICA_DETERMINISTA))
        else None
      else None
  }

  predicate Incluido(a: seq<Coordenada>, b: seq<Coordenada>) {
    forall y :: y in a ==> y in b
  }

  /** For lists without repeats, inclusion with different lengths means some
      member of the larger list is missing from the smaller, and the
      difference has exactly the length difference. */
  lemma DiferenciaLongitud(a: seq<Coordenada>, b: seq<Coordenada>)
    requires FilaMayor(a) && FilaMayor(b) && Incluido(a, b)
    ensures |a| <= |b|
    ensures |a| != |b| <==> exists y :: y in b && y !in a
    ensures |Diferencia(b, a)| == |b| - |a|
  {
    var d := Diferencia(b, a);
    FilaMayorDistintos(a);
    FilaMayorDistintos(b);
    FilaMayorDistintos(d);
    DistintosCardinal(a);
    DistintosCardinal(b);
    DistintosCardinal(d);
    var sa, sb, sd := ComoConjunto(a), ComoConjunto(b), ComoConjunto(d);
    assert sd == sb - sa;
    assert sb == sa + sd;
    assert sa * sd == {};
    if exists y :: y in b && y !in a {
      var y :| y in b && y !in a;
      assert y in sd;
    }
  }

  /** When a neighbour yields a conclusion: `v` is revealed and informative,
      every hidden neighbour of `x` is a hidden neighbour of `v` and at least
      one hidden neighbour of `v` is not one of `x`, and the remaining mines
      of `v` exceed those of `x` either by the number of extra cells or by
      nothing. The extra cells are then flagged or revealed respectively. */
  lemma ProbarVecinoCorrecto(t: Tablero, x: Coordenada, v: Coordenada)
    requires Bien(t) && EnRango(t, x) && EnRango(t, v)
    ensures var p := ProbarVecino(t, x, v);
      var dn, dv := Desconocidos(t, x), Desconocidos(t, v);
      var m := MinasRestantes(t, v) - MinasRestantes(t, x);
      (p.Some? <==>
        Celda(t, v).estado == REVELADA && Celda(t, v).numeroAdyacente != 0 &&
        Incluido(dn, dv) && (exists y :: y in dv && y !in dn) &&
        (m == |dv| - |dn| || m == 0)) &&
      (p.Some? ==>
        p.value.exito && p.value.certeza == 1.0 && p.value.tipo == LOGICA_DETERMINISTA &&
        (forall y :: y in p.value.coordenadas <==> y in dv && y !in dn) &&
        |p.value.coordenadas| == |dv| - |dn| > 0 &&
        (p.value.accion == Some(MARCAR_MINA) <==> m == |dv| - |dn|) &&
        (p.value.accion == Some(REVELAR) <==> m == 0))
  {
    var dn, dv := Desconocidos(t, x), Desconocidos(t, v);
    if Incluido(dn, dv) {
      DiferenciaLongitud(dn, dv);
    }
  }

  /** The position in `vs` of the first neighbour that yields a conclusion,
      `|vs|` when none does. */
  function PrimerVecino(t: Tablero, x: Coordenada, vs: seq<Coordenada>): (i: nat)
    requires Bien(t) && EnRango(t, x) && TodosEnRango(t, vs)
    ensures i <= |vs|
    ensures forall j :: 0 <= j < i ==> ProbarVecino(t, x, vs[j]).None?
    ensures i < |vs| ==> ProbarVecino(t, x, vs[i]).Some?
  {
    if vs == [] then 0
    else if ProbarVecino(t, x, vs[0]).Some? then 0
    else
      var i := PrimerVecino(t, x, vs[1..]);
      assert forall j :: 1 <= j <= i ==> vs[j] == vs[1..][j - 1];
      assert i < |vs[1..]| ==> vs[1 + i] == vs[1..][i];
      1 + i
  }

  /** The subset rule: no hidden neighbour means no inference; otherwise the
      first neighbour, in neighbour order, from which `ProbarVecino` draws a
      conclusion decides the result. */
  function AplicarSubconjunto(t: Tablero, x: Coordenada): (r: ResultadoInferencia)
    requires Bien(t) && EnRango(t, x)
    ensures |Desconocidos(t, x)| == 0 ==> r == Fallo(LOGICA_DETERMINISTA)
    ensures r.exito <==>
      (|Desconocidos(t, x)| > 0 && exists v :: v in VecinosDe(t, x) && ProbarVecino(t, x, v).Some?)
    ensures r.exito ==>
      exists i :: 0 <= i < |VecinosDe(t, x)| && ProbarVecino(t, x, VecinosDe(t, x)[i]) == Some(r) &&
        forall j :: 0 <= j < i ==> ProbarVecino(t, x, VecinosDe(t, x)[j]).None?
    ensures !r.exito ==> r == Fallo(LOGICA_DETERMINISTA)
    ensures r.exito ==> ObjetivosOcultos(t, r) && r.certeza == 1.0
    ensures r.tipo == LOGICA_DETERMINISTA
  {
    var desconocidosN := Desconocidos(t, x);
    var vs := VecinosDe(t, x);
    if |desconocidosN| == 0 then Fallo(LOGICA_DETERMINISTA)
    else
      var i := PrimerVecino(t, x, vs);
      if i < |vs| then
        VecinoOculto(t, x, vs[i]);
        ProbarVecino(t, x, vs[i]).value
      else Fallo(LOGICA_DETERMINISTA)
  }

  /** The subset rule's result is the first neighbour's conclusion. */
  lemma SubconjuntoPorPrimero(t: Tablero, x: Coordenada)
    requires Bien(t) && EnRango(t, x) && |Desconocidos(t, x)| > 0
    ensures var vs := VecinosDe(t, x); var i := PrimerVecino(t, x, vs);
      AplicarSubconjunto(t, x) == if i < |vs| then ProbarVecino(t, x, vs[i]).value else Fallo(LOGICA_DETERMINISTA)
  {
  }

  /** Scanning the neighbours in order, the first one with a conclusion is
      the one `PrimerVecino` names. */
  lemma PrimerVecinoPaso(t: Tablero, x: Coordenada, vs: seq<Coordenada>, i: nat)
    requires Bien(t) && EnRango(t, x) && TodosEnRango(t, vs)
    requires i <= PrimerVecino(t, x, vs) && i < |vs|
    ensures ProbarVecino(t, x, vs[i]).Some? <==> i == PrimerVecino(t, x, vs)
  {
  }

  lemma VecinoOculto(t: Tablero, x: Coordenada, v: Coordenada)
    requires Bien(t) && EnRango(t, x) && EnRango(t, v)
    ensures var p := ProbarVecino(t, x, v);
      p.Some? ==> ObjetivosOcultos(t, p.value) && p.value.certeza == 1.0
  {
    ProbarVecinoCorrecto(t, x, v);
  }

  // ---------------------------------------------------------------------------
  // 1-2-1 pattern

  /** The four axes, as (row, column) offsets of the two opposite cells:
      vertical, horizontal, main diagonal, anti-diagonal. */
  const Direcciones: seq<(int, int, int, int)> := [(-1, 0, 1, 0), (0, -1, 0, 1), (-1, -1, 1, 1), (-1, 1, 1, -1)]

  /** The two cells opposite each other across `x` along axis `d`. */
  function Opuestas(x: Coordenada, d: nat): (Coordenada, Coordenada)
    requires d < 4
  {
    var (a, b, c, e) := Direcciones[d];
    (Coordenada(x.fila + a, x.columna + b), Coordenada(x.fila + c, x.columna + e))
  }

  /** The hidden members of `vs`, other than `v1` and `v2`, that are in the
      neighbour list `n1` of `v1` or `n2` of `v2`. */
  function Candidatas(t: Tablero, v1: Coordenada, v2: Coordenada, n1: seq<Coordenada>, n2: seq<Coordenada>,
                      vs: seq<Coordenada>): (r: seq<Coordenada>)
    requires Forma(t) && TodosEnRango(t, vs)
    requires forall y :: y in n1 <==> EnRango(t, y) && Adyacentes(v1, y)
    requires forall y :: y in n2 <==> EnRango(t, y) && Adyacentes(v2, y)
    ensures forall y :: y in r <==> y in vs && Celda(t, y).estado == DESCONOCIDA && y != v1 && y != v2 &&
                                    (Adyacentes(v1, y) || Adyacentes(v2, y))
    ensures TodosEnRango(t, r)
    ensures FilaMayor(vs) ==> FilaMayor(r)
  {
    if vs == [] then []
    else
      var vecino := vs[0];
      var toma := Celda(t, vecino).estado == DESCONOCIDA && vecino != v1 && vecino != v2 &&
                  (vecino in n1 || vecino in n2);
      var resto := Candidatas(t, v1, v2, n1, n2, vs[1..]);
      CabezaAntes(vs);
      FilaMayorAntepuesto(vecino, resto);
      (if toma then [vecino] else []) + resto
  }

  /** The 1-2-1 check along axis `d`: both opposite cells exist and are
      revealed "1"s, and at least two candidates exist; the first two are
      flagged. */
  function ProbarEje(t: Tablero, x: Coordenada, d: nat): (p: Option<ResultadoInferencia>)
    requires Bien(t) && EnRango(t, x) && d < 4
    ensures p.Some? ==> p.value.exito && p.value.tipo == PATRON_RECONOCIDO
  {
    var (v1, v2) := Opuestas(x, d);
    var vecino1 := ObtenerNodo(t, v1.fila, v1.columna);
    var vecino2 := ObtenerNodo(t, v2.fila, v2.columna);
    if vecino1.None? || vecino2.None? then None
    else if vecino1.value.estado == REVELADA && vecino2.value.estado == REVELADA &&
            vecino1.value.numeroAdyacente == 1 && vecino2.value.numeroAdyacente == 1 then
      var minasCandidatas := Candidatas(t, v1, v2, VecinosDe(t, v1), VecinosDe(t, v2), VecinosDe(t, x));
      if |minasCandidatas| >= 2 then
        Some(ResultadoInferencia(true, Some(MARCAR_MINA), minasCandidatas[..2], 0.95, PATRON_RECONOCIDO))
      else None
    else None
  }

  /** Whether both opposite cells along axis `d` are on the board. */
  predicate EjeDentro(t: Tablero, x: Coordenada, d: nat)
    requires d < 4
  {
    EnRango(t, Opuestas(x, d).0) && EnRango(t, Opuestas(x, d).1)
  }

  /** The hidden neighbours of `x`, other than the opposite cells, that touch
      one of them, in row-major order. */
  function CandidatasEje(t: Tablero, x: Coordenada, d: nat): (r: seq<Coordenada>)
    requires Bien(t) && EnRango(t, x) && d < 4 && EjeDentro(t, x, d)
    ensures forall y :: y in r <==>
      EnRango(t, y) && Adyacentes(x, y) && Celda(t, y).estado == DESCONOCIDA &&
      y != Opuestas(x, d).0 && y != Opuestas(x, d).1 &&
      (Adyacentes(Opuestas(x, d).0, y) || Adyacentes(Opuestas(x, d).1, y))
    ensures FilaMayor(r)
  {
    Candidatas(t, Opuestas(x, d).0, Opuestas(x, d).1, VecinosDe(t, Opuestas(x, d).0),
               VecinosDe(t, Opuestas(x, d).1), VecinosDe(t, x))
  }

  /** An axis fires exactly when both opposite cells are on the board,
      revealed and labelled 1, and there are at least two candidates; it then
      flags two distinct candidates, the first two in row-major order, with
      certainty 0.95. */
  lemma ProbarEjeCorrecto(t: Tablero, x: Coordenada, d: nat)
    requires Bien(t) && EnRango(t, x) && d < 4
    ensures var p := ProbarEje(t, x, d);
      var (v1, v2) := Opuestas(x, d);
      (p.Some? <==>
        EjeDentro(t, x, d) &&
        Celda(t, v1).estado == REVELADA && Celda(t, v2).estado == REVELADA &&
        Celda(t, v1).numeroAdyacente == 1 && Celda(t, v2).numeroAdyacente == 1 &&
        |CandidatasEje(t, x, d)| >= 2) &&
      (p.Some? ==>
        var cs := CandidatasEje(t, x, d);
        p.value.exito && p.value.accion == Some(MARCAR_MINA) && p.value.certeza == 0.95 &&
        p.value.tipo == PATRON_RECONOCIDO && |p.value.coordenadas| == 2 &&
        p.value.coordenadas[0] in cs && p.value.coordenadas[1] in cs &&
        Antes(p.value.coordenadas[0], p.value.coordenadas[1]) &&
        forall y :: y in cs && Antes(y, p.value.coordenadas[1]) ==> y == p.value.coordenadas[0])
  {
    if EjeDentro(t, x, d) {
      CandidatasOrden(t, x, d);
    }
  }

  /** The second candidate of an axis is preceded only by the first. */
  lemma CandidatasOrden(t: Tablero, x: Coordenada, d: nat)
    requires Bien(t) && EnRango(t, x) && d < 4 && EjeDentro(t, x, d)
    ensures var cs := CandidatasEje(t, x, d);
      |cs| >= 2 ==> forall y :: y in cs && Antes(y, cs[1]) ==> y == cs[0]
  {
    var cs := CandidatasEje(t, x, d);
    if |cs| >= 2 {
      forall y | y in cs && Antes(y, cs[1]) ensures y == cs[0] {
        var i :| 0 <= i < |cs| && cs[i] == y;
      }
    }
  }

  /** The first axis, from `d` on, whose check succeeds; 4 when none does. */
  function PrimerEje(t: Tablero, x: Coordenada, d: nat): (i: nat)
    requires Bien(t) && EnRango(t, x) && d <= 4
    decreases 4 - d
    ensures d <= i <= 4
    ensures forall j :: d <= j < i ==> ProbarEje(t, x, j).None?
    ensures i < 4 ==> ProbarEje(t, x, i).Some?
  {
    if d == 4 then 4
    else if ProbarEje(t, x, d).Some? then d
    else PrimerEje(t, x, d + 1)
  }

  /** The 1-2-1 rule: the first axis (in the fixed order vertical,
      horizontal, main diagonal, anti-diagonal) whose check succeeds. */
  function AplicarPatron121(t: Tablero, x: Coordenada): (r: ResultadoInferencia)
    requires Bien(t) && EnRango(t, x)
    ensures r.exito <==> exists d :: 0 <= d < 4 && ProbarEje(t, x, d).Some?
    ensures r.exito ==> exists d :: 0 <= d < 4 && ProbarEje(t, x, d) == Some(r) &&
                                    forall j :: 0 <= j < d ==> ProbarEje(t, x, j).None?
    ensures !r.exito ==> r == Fallo(PATRON_RECONOCIDO)
    ensures r.exito ==> ObjetivosOcultos(t, r)
    ensures r.tipo == PATRON_RECONOCIDO
  {
    var d := PrimerEje(t, x, 0);
    if d < 4 then
      EjeOculto(t, x, d);
      ProbarEje(t, x, d).value
    else Fallo(PATRON_RECONOCIDO)
  }

  /** Scanning the axes in order, the first one that fires is the one
      `PrimerEje` names. */
  lemma PrimerEjePaso(t: Tablero, x: Coordenada, d: nat)
    requires Bien(t) && EnRango(t, x)
    requires d <= PrimerEje(t, x, 0) && d < 4
    ensures ProbarEje(t, x, d).Some? <==> d == PrimerEje(t, x, 0)
  {
  }

  /** The 1-2-1 rule's result is the first firing axis's conclusion. */
  lemma PatronPorPrimero(t: Tablero, x: Coordenada)
    requires Bien(t) && EnRango(t, x)
    ensures var d := PrimerEje(t, x, 0);
      AplicarPatron121(t, x) == if d < 4 then ProbarEje(t, x, d).value else Fallo(PATRON_RECONOCIDO)
  {
  }

  lemma EjeOculto(t: Tablero, x: Coordenada, d: nat)
    requires Bien(t) && EnRango(t, x) && d < 4
    ensures var p := ProbarEje(t, x, d);
      p.Some? ==> ObjetivosOcultos(t, p.value)
  {
    var p := ProbarEje(t, x, d);
    if p.Some? {
      var c := p.value.coordenadas;
      assert EjeDentro(t, x, d) && |c| == 2 && p.value.accion.Some? && p.value.certeza == 0.95 &&
             c[0] in CandidatasEje(t, x, d) && c[1] in CandidatasEje(t, x, d) by {
        ProbarEjeCorrecto(t, x, d);
      }
      assert c == [c[0], c[1]];
    }
  }

  /** On the vertical and horizontal axes every hidden neighbour of `x`
      other than the two opposite cells touches one of them, so the
      neighbour test keeps them all: with "one or the other" the test only
      narrows the diagonal axes. */
  lemma CandidatasEjesRectos(t: Tablero, x: Coordenada, d: nat, y: Coordenada)
    requires Bien(t) && EnRango(t, x) && d < 2 && EjeDentro(t, x, d)
    requires y in VecinosDe(t, x) && Celda(t, y).estado == DESCONOCIDA
    requires y != Opuestas(x, d).0 && y != Opuestas(x, d).1
    ensures y in CandidatasEje(t, x, d)
  {
    var (v1, v2) := Opuestas(x, d);
    if d == 0 {
      assert v1 == Coordenada(x.fila - 1, x.columna) && v2 == Coordenada(x.fila + 1, x.columna);
      if y.fila <= x.fila { assert Adyacentes(v1, y); } else { assert Adyacentes(v2, y); }
    } else {
      assert v1 == Coordenada(x.fila, x.columna - 1) && v2 == Coordenada(x.fila, x.columna + 1);
      if y.columna <= x.columna { assert Adyacentes(v1, y); } else { assert Adyacentes(v2, y); }
    }
  }

  // ---------------------------------------------------------------------------
  // Dispatch

  /** The result of applying rule `k` at `x`. */
  function AplicarRegla(k: TipoRegla, t: Tablero, x: Coordenada): (r: ResultadoInferencia)
    requires Bien(t) && EnRango(t, x)
    ensures r.tipo == Categoria(k)
    ensures !r.exito ==> r == Fallo(Categoria(k))
    ensures r.exito ==> ObjetivosOcultos(t, r)
    ensures r.exito && k != Patron121 ==> r.certeza == 1.0
  {
    match k
    case MinasCompletas => AplicarMinasCompletas(t, x)
    case Saturacion => AplicarSaturacion(t, x)
    case Subconjunto => AplicarSubconjunto(t, x)
    case Patron121 => AplicarPatron121(t, x)
  }

  /** Every rule except the subset rule on a node without hidden neighbours
      records the attempt in its counters. */
  predicate Registra(k: TipoRegla, t: Tablero, x: Coordenada)
    requires Bien(t) && EnRango(t, x)
  {
    !(k == Subconjunto && |Desconocidos(t, x)| == 0)
  }

  /** The subset rule's scan over the neighbours of `x`, stopping at the
      first one that yields a conclusion. */
  method EvaluarSubconjunto(t: Tablero, x: Coordenada) returns (r: ResultadoInferencia)
    requires Bien(t) && EnRango(t, x) && |Desconocidos(t, x)| > 0
    ensures r == AplicarSubconjunto(t, x)
  {
    var vs := VecinosDe(t, x);
    SubconjuntoPorPrimero(t, x);
    ghost var primero := PrimerVecino(t, x, vs);
    var i := 0;
    while i < |vs|
      invariant 0 <= i <= primero
    {
      var p := ProbarVecino(t, x, vs[i]);
      PrimerVecinoPaso(t, x, vs, i);
      if p.Some? {
        return p.value;
      }
      i := i + 1;
    }
    return Fallo(LOGICA_DETERMINISTA);
  }

  /** The 1-2-1 rule's scan over the four axes, stopping at the first match. */
  method EvaluarPatron121(t: Tablero, x: Coordenada) returns (r: ResultadoInferencia)
    requires Bien(t) && EnRango(t, x)
    ensures r == AplicarPatron121(t, x)
  {
    PatronPorPrimero(t, x);
    ghost var primero := PrimerEje(t, x, 0);
    var d := 0;
    while d < 4
      invariant 0 <= d <= primero
    {
      var p := ProbarEje(t, x, d);
      PrimerEjePaso(t, x, d);
      if p.Some? {
        return p.value;
      }
      d := d + 1;
    }
    return Fallo(PATRON_RECONOCIDO);
  }

  // ---------------------------------------------------------------------------
  // Rule objects

  class ReglaInferencia {
    const regla: TipoRegla
    const nombre: string := Nombre(regla)
    const prioridad: nat := Prioridad(regla)
    const tipo: TipoInferencia := Categoria(regla)
    var aplicacionesExitosas: nat
    var aplicacionesTotales: nat

    ghost predicate Valid()
      reads this
    {
      aplicacionesExitosas <= aplicacionesTotales
    }

    constructor (regla: TipoRegla)
      ensures Valid() && this.regla == regla
      ensures aplicacionesExitosas == 0 && aplicacionesTotales == 0
    {
      this.regla := regla;
      aplicacionesExitosas := 0;
      aplicacionesTotales := 0;
    }

    method RegistrarAplicacion(exito: bool)
      requires Valid()
      modifies this
      ensures Valid()
      ensures aplicacionesTotales == old(aplicacionesTotales) + 1
      ensures aplicacionesExitosas == old(aplicacionesExitosas) + if exito then 1 else 0
    {
      aplicacionesTotales := aplicacionesTotales + 1;
      if exito {
        aplicacionesExitosas := aplicacionesExitosas + 1;
      }
    }

    /** Successes over attempts, 0 before the first attempt. */
    function TasaExito(): (r: real)
      reads this
      requires Valid()
      ensures aplicacionesTotales == 0 ==> r == 0.0
      ensures 0.0 <= r <= 1.0
      ensures aplicacionesTotales > 0 ==> r * aplicacionesTotales as real == aplicacionesExitosas as real
    {
      if aplicacionesTotales == 0 then 0.0
      else aplicacionesExitosas as real / aplicacionesTotales as real
    }

    /** Runs the rule at `x`. The board is a value: the rule cannot change it. */
    method Aplicar(t: Tablero, x: Coordenada) returns (r: ResultadoInferencia)
      requires Valid() && Bien(t) && EnRango(t, x)
      modifies this
      ensures Valid() && r == AplicarRegla(regla, t, x)
      ensures aplicacionesTotales == old(aplicacionesTotales) + if Registra(regla, t, x) then 1 else 0
      ensures aplicacionesExitosas == old(aplicacionesExitosas) + if r.exito then 1 else 0
    {
      match regla {
        case MinasCompletas =>
          r := AplicarMinasCompletas(t, x);
          RegistrarAplicacion(r.exito);
        case Saturacion =>
          r := AplicarSaturacion(t, x);
          RegistrarAplicacion(r.exito);
        case Subconjunto =>
          if |Desconocidos(t, x)| == 0 {
            return Fallo(tipo);
          }
          r := EvaluarSubconjunto(t, x);
          RegistrarAplicacion(r.exito);
        case Patron121 =>
          r := EvaluarPatron121(t, x);
          RegistrarAplicacion(r.exito);
      }
    }
  }
}
