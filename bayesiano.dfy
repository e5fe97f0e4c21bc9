/** Mine probabilities. The exact path enumerates every mine assignment of
    the relevant hidden cells and counts those consistent with the informative
    neighbours; large neighbourhoods use a weighted mean of local ratios
    instead; everything else falls back to the global ratio. Probabilities
    are `real`: no floating-point rounding is modelled. */
module Bayesiano {
  import opened Tipos
  import opened Grafo

  /** A revealed node with a positive label constrains its neighbours. */
  predicate Informativo(t: Tablero, v: Coordenada)
    requires Bien(t) && EnRango(t, v)
  {
    Celda(t, v).estado == REVELADA && Celda(t, v).numeroAdyacente > 0
  }

  /** The informative members of `vs`, in order. */
  function Informativos(t: Tablero, vs: seq<Coordenada>): (r: seq<Coordenada>)
    requires Bien(t) && TodosEnRango(t, vs)
    ensures forall y :: y in r <==> y in vs && Informativo(t, y)
    ensures TodosEnRango(t, r) && |r| <= |vs|
  {
    if vs == [] then []
    else (if Informativo(t, vs[0]) then [vs[0]] else []) + Informativos(t, vs[1..])
  }

  function VecinosInformativos(t: Tablero, x: Coordenada): (r: seq<Coordenada>)
    requires Bien(t) && EnRango(t, x)
    ensures forall y :: y in r <==> EnRango(t, y) && Adyacentes(x, y) && Informativo(t, y)
    ensures TodosEnRango(t, r)
  {
    Informativos(t, VecinosDe(t, x))
  }

  // ---------------------------------------------------------------------------
  // Global ratio

  /** Remaining mines (total minus flags) over hidden cells, capped at 1;
      0 when nothing is hidden. There is no floor: with more flags than
      mines the ratio is negative. */
  function ProbabilidadBase(t: Tablero): (r: real)
    requires Bien(t)
    ensures Contar(t, DESCONOCIDA) == 0 ==> r == 0.0
    ensures r <= 1.0
  {
    var marcadas := Contar(t, MARCADA);
    var desconocidas := Contar(t, DESCONOCIDA);
    RazonAcotada(t.totalMinas - marcadas, desconocidas)
  }

  /** `minasRestantes / desconocidas` capped at 1, and 0 when nothing is hidden. */
  function RazonAcotada(minasRestantes: int, desconocidas: nat): (r: real)
    ensures desconocidas == 0 ==> r == 0.0
    ensures r <= 1.0
    ensures minasRestantes >= 0 ==> 0.0 <= r
    ensures desconocidas > 0 && minasRestantes < 0 ==> r < 0.0
    ensures desconocidas > 0 && r < 1.0 ==> r * desconocidas as real == minasRestantes as real
  {
    if desconocidas == 0 then 0.0
    else
      var cociente := minasRestantes as real / desconocidas as real;
      Cociente(minasRestantes as real, desconocidas as real);
      if cociente < 1.0 then cociente else 1.0
  }

  lemma Cociente(n: real, d: real)
    requires d > 0.0
    ensures (n / d) * d == n
    ensures n >= 0.0 ==> n / d >= 0.0
    ensures n < 0.0 ==> n / d < 0.0
  {
  }

  /** The global ratio is non-negative while there are no more flags than
      mines, and negative once there are more. */
  lemma BaseSignificado(t: Tablero)
    requires Bien(t)
    ensures t.totalMinas >= Contar(t, MARCADA) ==> 0.0 <= ProbabilidadBase(t)
    ensures Contar(t, DESCONOCIDA) > 0 && t.totalMinas < Contar(t, MARCADA) ==> ProbabilidadBase(t) < 0.0
  {
  }

  // ---------------------------------------------------------------------------
  // Relevant cells

  /** `acc` followed by the hidden members of `vs[..j]` it does not already
      hold, in order of first appearance. */
  function AgregarOcultas(t: Tablero, acc: seq<Coordenada>, vs: seq<Coordenada>, j: nat): seq<Coordenada>
    requires Forma(t) && TodosEnRango(t, vs) && j <= |vs|
  {
    if j == 0 then acc
    else
      var a := AgregarOcultas(t, acc, vs, j - 1);
      var v := vs[j - 1];
      if Celda(t, v).estado == DESCONOCIDA && v !in a then a + [v] else a
  }

  lemma {:induction false} AgregarOcultasForma(t: Tablero, acc: seq<Coordenada>, vs: seq<Coordenada>, j: nat)
    requires Forma(t) && TodosEnRango(t, vs) && j <= |vs|
    ensures var r := AgregarOcultas(t, acc, vs, j);
      |acc| <= |r| && r[..|acc|] == acc &&
      (Distintos(acc) ==> Distintos(r)) &&
      (TodosEnRango(t, acc) ==> TodosEnRango(t, r))
  {
    if j > 0 {
      AgregarOcultasForma(t, acc, vs, j - 1);
      var a := AgregarOcultas(t, acc, vs, j - 1);
      var v := vs[j - 1];
      if Celda(t, v).estado == DESCONOCIDA && v !in a {
        assert (a + [v])[..|acc|] == a[..|acc|];
        if Distintos(a) {
          assert Distintos(a + [v]) by {
            forall i, k | 0 <= i < k < |a + [v]| ensures (a + [v])[i] != (a + [v])[k] {
              if k == |a| { assert (a + [v])[i] == a[i]; assert a[i] in a; }
            }
          }
        }
      }
    }
  }

  lemma {:induction false} AgregarOcultasMiembro(t: Tablero, acc: seq<Coordenada>, vs: seq<Coordenada>, j: nat, y: Coordenada)
    requires Forma(t) && TodosEnRango(t, vs) && j <= |vs|
    ensures y in AgregarOcultas(t, acc, vs, j) <==> y in acc || (y in vs[..j] && Celda(t, y).estado == DESCONOCIDA)
  {
    if j > 0 {
      AgregarOcultasMiembro(t, acc, vs, j - 1, y);
      assert vs[..j] == vs[..j - 1] + [vs[j - 1]];
    }
  }

  /** Every list of `ls` lies on the board. */
  predicate ListasEnRango(t: Tablero, ls: seq<seq<Coordenada>>) {
    forall i :: 0 <= i < |ls| ==> TodosEnRango(t, ls[i])
  }

  /** The neighbour lists of `infos`, one per node. */
  function Vecindades(t: Tablero, infos: seq<Coordenada>): (r: seq<seq<Coordenada>>)
    requires Bien(t) && TodosEnRango(t, infos)
    ensures |r| == |infos| && ListasEnRango(t, r)
    ensures forall i :: 0 <= i < |r| ==> r[i] == VecinosDe(t, infos[i])
  {
    if infos == [] then [] else [VecinosDe(t, infos[0])] + Vecindades(t, infos[1..])
  }

  /** `[x]` extended with the hidden members of `ls[0]`, ..., `ls[k-1]`, without repeats. */
  function RelevantesHasta(t: Tablero, x: Coordenada, ls: seq<seq<Coordenada>>, k: nat): seq<Coordenada>
    requires Forma(t) && ListasEnRango(t, ls) && k <= |ls|
  {
    if k == 0 then [x]
    else
      var vs := ls[k - 1];
      AgregarOcultas(t, RelevantesHasta(t, x, ls, k - 1), vs, |vs|)
  }

  /** Whether `y` is a hidden member of one of the first `k` lists. */
  ghost predicate OcultaEn(t: Tablero, ls: seq<seq<Coordenada>>, k: nat, y: Coordenada)
    requires Forma(t) && ListasEnRango(t, ls) && k <= |ls|
  {
    exists i :: 0 <= i < k && y in ls[i] && Celda(t, y).estado == DESCONOCIDA
  }

  lemma {:induction false} RelevantesHastaForma(t: Tablero, x: Coordenada, ls: seq<seq<Coordenada>>, k: nat)
    requires Forma(t) && EnRango(t, x) && ListasEnRango(t, ls) && k <= |ls|
    ensures var r := RelevantesHasta(t, x, ls, k);
      |r| >= 1 && r[0] == x && Distintos(r) && TodosEnRango(t, r)
  {
    if k > 0 {
      RelevantesHastaForma(t, x, ls, k - 1);
      var prev := RelevantesHasta(t, x, ls, k - 1);
      AgregarOcultasForma(t, prev, ls[k - 1], |ls[k - 1]|);
    }
  }

  lemma {:induction false} RelevantesHastaMiembro(t: Tablero, x: Coordenada, ls: seq<seq<Coordenada>>, k: nat, y: Coordenada)
    requires Forma(t) && EnRango(t, x) && ListasEnRango(t, ls) && k <= |ls|
    ensures y in RelevantesHasta(t, x, ls, k) <==> y == x || OcultaEn(t, ls, k, y)
  {
    if k > 0 {
      RelevantesHastaMiembro(t, x, ls, k - 1, y);
      var prev := RelevantesHasta(t, x, ls, k - 1);
      var vs := ls[k - 1];
      AgregarOcultasMiembro(t, prev, vs, |vs|, y);
      assert vs[..|vs|] == vs;
      if OcultaEn(t, ls, k, y) && !OcultaEn(t, ls, k - 1, y) {
        var i :| 0 <= i < k && y in ls[i] && Celda(t, y).estado == DESCONOCIDA;
        assert i == k - 1;
      }
    }
  }

  /** Whether `y` is a hidden neighbour of one of `infos`. */
  ghost predicate OcultaJunto(t: Tablero, infos: seq<Coordenada>, y: Coordenada)
    requires Bien(t)
  {
    EnRango(t, y) && Celda(t, y).estado == DESCONOCIDA && exists v :: v in infos && Adyacentes(v, y)
  }

  lemma OcultaEnVecindades(t: Tablero, infos: seq<Coordenada>, y: Coordenada)
    requires Bien(t) && TodosEnRango(t, infos)
    ensures OcultaEn(t, Vecindades(t, infos), |infos|, y) <==> OcultaJunto(t, infos, y)
  {
    var ls := Vecindades(t, infos);
    if OcultaJunto(t, infos, y) {
      var v :| v in infos && Adyacentes(v, y);
      var i :| 0 <= i < |infos| && infos[i] == v;
      assert y in ls[i];
    }
  }

  /** The cells whose assignments are enumerated: the target first, then the
      hidden neighbours of its informative neighbours. */
  function Relevantes(t: Tablero, x: Coordenada, infos: seq<Coordenada>): (r: seq<Coordenada>)
    requires Bien(t) && EnRango(t, x) && TodosEnRango(t, infos)
    ensures |r| >= 1 && r[0] == x && Distintos(r) && TodosEnRango(t, r)
    ensures forall y :: y in r <==> y == x || OcultaJunto(t, infos, y)
  {
    var ls := Vecindades(t, infos);
    RelevantesHastaForma(t, x, ls, |ls|);
    forall y ensures y in RelevantesHasta(t, x, ls, |ls|) <==> y == x || OcultaJunto(t, infos, y) {
      RelevantesHastaMiembro(t, x, ls, |ls|, y);
      OcultaEnVecindades(t, infos, y);
    }
    RelevantesHasta(t, x, ls, |ls|)
  }

  // ---------------------------------------------------------------------------
  // Assignments as bit masks

  /** Two to the power `n`: the number of masks over `n` cells. */
  function Pow2(n: nat): (r: nat)
    ensures r >= 1
  {
    if n == 0 then 1 else Pow2(n - 1) + Pow2(n - 1)
  }

  /** Bit `i` of `mask`: the low bit of `mask` shifted right `i` times. */
  predicate Bit(mask: nat, i: nat) {
    if i == 0 then mask % 2 == 1 else Bit(mask / 2, i - 1)
  }

  /** The cells of `lista[..i]` whose bit is set in `mask`. */
  function ConfigHasta(lista: seq<Coordenada>, mask: nat, i: nat): set<Coordenada>
    requires i <= |lista|
  {
    if i == 0 then {}
    else ConfigHasta(lista, mask, i - 1) + (if Bit(mask, i - 1) then {lista[i - 1]} else {})
  }

  /** The assignment of mask `mask`: the cells of `lista` whose bit is set. */
  function Configuracion(lista: seq<Coordenada>, mask: nat): set<Coordenada> {
    set i | 0 <= i < |lista| && Bit(mask, i) :: lista[i]
  }

  lemma {:induction false} ConfigHastaMiembros(lista: seq<Coordenada>, mask: nat, i: nat, y: Coordenada)
    requires i <= |lista|
    ensures y in ConfigHasta(lista, mask, i) <==> exists j :: 0 <= j < i && Bit(mask, j) && lista[j] == y
  {
    if i > 0 {
      ConfigHastaMiembros(lista, mask, i - 1, y);
    }
  }

  lemma ConfigHastaCompleta(lista: seq<Coordenada>, mask: nat)
    ensures ConfigHasta(lista, mask, |lista|) == Configuracion(lista, mask)
  {
    forall y ensures y in ConfigHasta(lista, mask, |lista|) <==> y in Configuracion(lista, mask) {
      ConfigHastaMiembros(lista, mask, |lista|, y);
    }
  }

  /** The target is first in the list, so it carries a mine in exactly the
      odd masks. */
  lemma ObjetivoEnMascarasImpares(lista: seq<Coordenada>, mask: nat)
    requires |lista| >= 1 && Distintos(lista)
    ensures lista[0] in Configuracion(lista, mask) <==> mask % 2 == 1
  {
    assert Bit(mask, 0) <==> mask % 2 == 1;
    if lista[0] in Configuracion(lista, mask) {
      var i :| 0 <= i < |lista| && Bit(mask, i) && lista[i] == lista[0];
    }
  }


  /** Bit 0 of `b + 2 * m` is `b`; the higher bits are those of `m`. */
  lemma BitDoble(b: nat, m: nat, i: nat)
    requires b < 2
    ensures Bit(b + 2 * m, 0) <==> b == 1
    ensures Bit(b + 2 * m, i + 1) <==> Bit(m, i)
  {
    assert (b + 2 * m) / 2 == m;
  }

  /** The mask of an assignment `s`: bit `i` set exactly when `lista[i]` is in `s`. */
  function Codigo(lista: seq<Coordenada>, s: set<Coordenada>): (m: nat)
    ensures m < Pow2(|lista|)
  {
    if lista == [] then 0 else (if lista[0] in s then 1 else 0) + 2 * Codigo(lista[1..], s)
  }

  lemma {:induction false} CodigoBits(lista: seq<Coordenada>, s: set<Coordenada>, i: nat)
    requires i < |lista|
    ensures Bit(Codigo(lista, s), i) <==> lista[i] in s
  {
    var b := if lista[0] in s then 1 else 0;
    if i == 0 {
      BitDoble(b, Codigo(lista[1..], s), 0);
    } else {
      BitDoble(b, Codigo(lista[1..], s), i - 1);
      CodigoBits(lista[1..], s, i - 1);
    }
  }

  /** Every assignment of the listed cells is the assignment of some mask
      below `Pow2(|lista|)`: the enumeration misses none. */
  lemma MascarasCubren(lista: seq<Coordenada>, s: set<Coordenada>)
    ensures Codigo(lista, s) < Pow2(|lista|)
    ensures Configuracion(lista, Codigo(lista, s)) == s * (set y | y in lista)
  {
    var m := Codigo(lista, s);
    forall y ensures y in Configuracion(lista, m) <==> y in s * (set y | y in lista) {
      if y in Configuracion(lista, m) {
        var i :| 0 <= i < |lista| && Bit(m, i) && lista[i] == y;
        CodigoBits(lista, s, i);
      }
      if y in s && y in lista {
        var i :| 0 <= i < |lista| && lista[i] == y;
        CodigoBits(lista, s, i);
      }
    }
  }

  /** Two different masks below `Pow2(n)` differ in one of their first `n` bits. */
  lemma {:induction false} BitDistinto(n: nat, m1: nat, m2: nat) returns (i: nat)
    requires m1 < Pow2(n) && m2 < Pow2(n) && m1 != m2
    ensures i < n && (Bit(m1, i) <==> !Bit(m2, i))
  {
    BitDoble(m1 % 2, m1 / 2, 0);
    BitDoble(m2 % 2, m2 / 2, 0);
    if m1 % 2 != m2 % 2 {
      i := 0;
    } else {
      var j := BitDistinto(n - 1, m1 / 2, m2 / 2);
      BitDoble(m1 % 2, m1 / 2, j);
      BitDoble(m2 % 2, m2 / 2, j);
      i := j + 1;
    }
  }

  /** Over a repeat-free list, different masks below `Pow2(|lista|)` give
      different assignments: the enumeration counts none twice. */
  lemma MascarasDistintas(lista: seq<Coordenada>, m1: nat, m2: nat)
    requires Distintos(lista)
    requires m1 < Pow2(|lista|) && m2 < Pow2(|lista|) && m1 != m2
    ensures Configuracion(lista, m1) != Configuracion(lista, m2)
  {
    var i := BitDistinto(|lista|, m1, m2);
    if Bit(m1, i) {
      if lista[i] in Configuracion(lista, m2) {
        var j :| 0 <= j < |lista| && Bit(m2, j) && lista[j] == lista[i];
      }
    } else {
      if lista[i] in Configuracion(lista, m1) {
        var j :| 0 <= j < |lista| && Bit(m1, j) && lista[j] == lista[i];
      }
    }
  }
  // ---------------------------------------------------------------------------
  // Constraints

  /** How many members of `vs` the assignment mines. */
  function MinasEnConfig(vs: seq<Coordenada>, config: set<Coordenada>): (r: nat)
    ensures r <= |vs|
  {
    if vs == [] then 0 else (if vs[0] in config then 1 else 0) + MinasEnConfig(vs[1..], config)
  }

  /** Over a list without repeats, the count is the number of listed cells
      the assignment mines. */
  lemma {:induction false} MinasEnConfigCuenta(vs: seq<Coordenada>, config: set<Coordenada>)
    requires Distintos(vs)
    ensures MinasEnConfig(vs, config) == |config * (set y | y in vs)|
  {
    if vs != [] {
      var resto := vs[1..];
      ColaDistinta(vs);
      MinasEnConfigCuenta(resto, config);
      var a := config * (set y | y in resto);
      var b := config * (set y | y in vs);
      assert forall y :: y in vs <==> y == vs[0] || y in resto;
      if vs[0] in config {
        assert b == a + {vs[0]};
      } else {
        assert b == a;
      }
    }
  }

  /** The tail of a list without repeats has none, and misses the head. */
  lemma ColaDistinta(vs: seq<Coordenada>)
    requires Distintos(vs) && vs != []
    ensures Distintos(vs[1..]) && vs[0] !in vs[1..]
  {
    var resto := vs[1..];
    forall i, j | 0 <= i < j < |resto| ensures resto[i] != resto[j] {
      assert resto[i] == vs[i + 1] && resto[j] == vs[j + 1];
    }
    forall k | 0 <= k < |resto| ensures resto[k] != vs[0] {
      assert resto[k] == vs[k + 1];
    }
  }

  /** The constraint of one informative neighbour: its neighbours and how
      many of them an assignment must mine, its label less its flags. */
  datatype Restriccion = Restriccion(vecinos: seq<Coordenada>, faltan: int)

  function RestriccionDe(t: Tablero, v: Coordenada): Restriccion
    requires Bien(t) && EnRango(t, v)
  {
    Restriccion(VecinosDe(t, v), Celda(t, v).numeroAdyacente - ContarVecinosPorEstado(t, v, MARCADA))
  }

  /** The constraints of `infos`, in order. */
  function Restricciones(t: Tablero, infos: seq<Coordenada>): (r: seq<Restriccion>)
    requires Bien(t) && TodosEnRango(t, infos)
    ensures |r| == |infos|
    ensures forall i :: 0 <= i < |infos| ==> r[i] == RestriccionDe(t, infos[i])
  {
    if infos == [] then [] else [RestriccionDe(t, infos[0])] + Restricciones(t, infos[1..])
  }

  /** Flags plus assigned mines around the neighbour equal its label. */
  predicate Satisface(r: Restriccion, config: set<Coordenada>) {
    MinasEnConfig(r.vecinos, config) == r.faltan
  }

  /** An assignment is valid when every constraint holds. */
  predicate Valida(rs: seq<Restriccion>, config: set<Coordenada>) {
    forall r :: r in rs ==> Satisface(r, config)
  }

  /** The number of masks below `m` giving a valid assignment. */
  function ValidasHasta(rs: seq<Restriccion>, lista: seq<Coordenada>, m: nat): nat {
    if m == 0 then 0
    else ValidasHasta(rs, lista, m - 1) + if Valida(rs, Configuracion(lista, m - 1)) then 1 else 0
  }

  lemma ValidasPaso(rs: seq<Restriccion>, lista: seq<Coordenada>, m: nat)
    ensures ValidasHasta(rs, lista, m + 1) == ValidasHasta(rs, lista, m) + if Valida(rs, Configuracion(lista, m)) then 1 else 0
  {
  }

  /** The number of masks below `m` giving a valid assignment that mines `x`. */
  function ObjetivoHasta(rs: seq<Restriccion>, x: Coordenada, lista: seq<Coordenada>, m: nat): nat {
    if m == 0 then 0
    else
      var config := Configuracion(lista, m - 1);
      ObjetivoHasta(rs, x, lista, m - 1) + if Valida(rs, config) && x in config then 1 else 0
  }

  lemma ObjetivoPaso(rs: seq<Restriccion>, x: Coordenada, lista: seq<Coordenada>, m: nat)
    ensures ObjetivoHasta(rs, x, lista, m + 1) ==
      ObjetivoHasta(rs, x, lista, m) + if Valida(rs, Configuracion(lista, m)) && x in Configuracion(lista, m) then 1 else 0
  {
  }

  lemma {:induction false} ObjetivoAcotado(rs: seq<Restriccion>, x: Coordenada, lista: seq<Coordenada>, m: nat)
    ensures ObjetivoHasta(rs, x, lista, m) <= ValidasHasta(rs, lista, m)
  {
    if m > 0 {
      ObjetivoAcotado(rs, x, lista, m - 1);
    }
  }

  // ---------------------------------------------------------------------------
  // Weighted approximation

  /** Remaining mines over hidden cells around `v`. */
  function RazonLocal(t: Tablero, v: Coordenada): real
    requires Bien(t) && EnRango(t, v) && EspaciosLibres(t, v) > 0
  {
    MinasRestantes(t, v) as real / EspaciosLibres(t, v) as real
  }

  function Peso(t: Tablero, v: Coordenada): (r: real)
    requires Bien(t) && EnRango(t, v)
    ensures r > 0.0
  {
    1.0 / (EspaciosLibres(t, v) + 1) as real
  }

  /** The (local ratio, weight) terms of the informative neighbours that
      still have hidden cells, in order. */
  function Terminos(t: Tablero, infos: seq<Coordenada>): (r: seq<(real, real)>)
    requires Bien(t) && TodosEnRango(t, infos)
    ensures forall p :: p in r ==> p.1 > 0.0
    ensures forall p :: p in r ==>
      exists v :: v in infos && EspaciosLibres(t, v) > 0 && p.0 == RazonLocal(t, v)
    ensures |r| == 0 <==> forall v :: v in infos ==> EspaciosLibres(t, v) == 0
  {
    if infos == [] then []
    else
      var previos := infos[..|infos| - 1];
      var v := infos[|infos| - 1];
      assert forall w :: w in infos <==> w in previos || w == v;
      var resto := Terminos(t, previos);
      if EspaciosLibres(t, v) > 0 then resto + [(RazonLocal(t, v), Peso(t, v))] else resto
  }

  /** One more informative neighbour adds its term when it has hidden cells. */
  lemma TerminosAgregar(t: Tablero, infos: seq<Coordenada>, k: nat)
    requires Bien(t) && TodosEnRango(t, infos) && k < |infos|
    ensures var v := infos[k];
      Terminos(t, infos[..k + 1]) ==
        Terminos(t, infos[..k]) + if EspaciosLibres(t, v) > 0 then [(RazonLocal(t, v), Peso(t, v))] else []
  {
    assert infos[..k + 1][..k] == infos[..k];
  }

  function SumaPonderada(ts: seq<(real, real)>): real {
    if ts == [] then 0.0 else SumaPonderada(ts[..|ts| - 1]) + ts[|ts| - 1].0 * ts[|ts| - 1].1
  }

  function SumaPesos(ts: seq<(real, real)>): real {
    if ts == [] then 0.0 else SumaPesos(ts[..|ts| - 1]) + ts[|ts| - 1].1
  }

  lemma {:induction false} SumaPesosPositiva(ts: seq<(real, real)>)
    requires forall p :: p in ts ==> p.1 > 0.0
    ensures |ts| > 0 ==> SumaPesos(ts) > 0.0
    ensures SumaPesos(ts) >= 0.0
  {
    if ts != [] {
      assert ts[|ts| - 1] in ts;
      assert forall p :: p in ts[..|ts| - 1] ==> p in ts;
      SumaPesosPositiva(ts[..|ts| - 1]);
    }
  }

  /** The weighted mean of the terms; the global ratio when there are none. */
  function ProbabilidadAproximada(t: Tablero, infos: seq<Coordenada>): real
    requires Bien(t) && TodosEnRango(t, infos)
  {
    var ts := Terminos(t, infos);
    if |ts| == 0 then ProbabilidadBase(t)
    else
      SumaPesosPositiva(ts);
      SumaPonderada(ts) / SumaPesos(ts)
  }

  lemma SumasEntre(ts: seq<(real, real)>, lo: real, hi: real)
    requires forall p :: p in ts ==> p.1 > 0.0 && lo <= p.0 <= hi
    ensures lo * SumaPesos(ts) <= SumaPonderada(ts) <= hi * SumaPesos(ts)
  {
    SumasSobre(ts, lo);
    SumasBajo(ts, hi);
  }

  /** The lower half of `SumasEntre`. */
  lemma {:induction false} SumasSobre(ts: seq<(real, real)>, lo: real)
    requires forall p :: p in ts ==> p.1 > 0.0 && lo <= p.0
    ensures lo * SumaPesos(ts) <= SumaPonderada(ts)
  {
    if ts == [] {
      assert SumaPesos(ts) == 0.0 && SumaPonderada(ts) == 0.0;
    } else {
      var u, init := ts[|ts| - 1], ts[..|ts| - 1];
      assert u in ts;
      assert forall p :: p in init ==> p in ts;
      SumasSobre(init, lo);
      PasoSobre(SumaPesos(init), SumaPonderada(init), u.0, u.1, SumaPesos(ts), SumaPonderada(ts), lo);
    }
  }

  /** The upper half of `SumasEntre`. */
  lemma {:induction false} SumasBajo(ts: seq<(real, real)>, hi: real)
    requires forall p :: p in ts ==> p.1 > 0.0 && p.0 <= hi
    ensures SumaPonderada(ts) <= hi * SumaPesos(ts)
  {
    if ts == [] {
      assert SumaPesos(ts) == 0.0 && SumaPonderada(ts) == 0.0;
    } else {
      var u, init := ts[|ts| - 1], ts[..|ts| - 1];
      assert u in ts;
      assert forall p :: p in init ==> p in ts;
      SumasBajo(init, hi);
      PasoBajo(SumaPesos(init), SumaPonderada(init), u.0, u.1, SumaPesos(ts), SumaPonderada(ts), hi);
    }
  }

  /** One step of `SumasSobre`: adding a term whose ratio is at least `lo`. */
  lemma PasoSobre(pesos: real, ponderada: real, a: real, w: real, total: real, totalPonderada: real, lo: real)
    requires w > 0.0 && lo <= a && lo * pesos <= ponderada
    requires total == pesos + w && totalPonderada == ponderada + a * w
    ensures lo * total <= totalPonderada
  {
    MultiplicarPositivo(lo, a, w);
    assert lo * (pesos + w) == lo * pesos + lo * w;
  }

  /** One step of `SumasBajo`: adding a term whose ratio is at most `hi`. */
  lemma PasoBajo(pesos: real, ponderada: real, a: real, w: real, total: real, totalPonderada: real, hi: real)
    requires w > 0.0 && a <= hi && ponderada <= hi * pesos
    requires total == pesos + w && totalPonderada == ponderada + a * w
    ensures totalPonderada <= hi * total
  {
    MultiplicarPositivo(a, hi, w);
    assert hi * (pesos + w) == hi * pesos + hi * w;
  }

  lemma MultiplicarPositivo(a: real, b: real, w: real)
    requires a <= b && w > 0.0
    ensures a * w <= b * w
  {
  }

  lemma DividirEntre(s: real, w: real, lo: real, hi: real)
    requires w > 0.0 && lo * w <= s <= hi * w
    ensures lo <= s / w <= hi
  {
    assert (s / w) * w == s;
    if s / w < lo {
      MultiplicarPositivo(s / w, lo, w);
    }
    if s / w > hi {
      MultiplicarPositivo(hi, s / w, w);
    }
  }

  /** When some informative neighbour has hidden cells, the approximation
      lies between the smallest and the largest local ratio. */
  lemma AproximadaEntreExtremos(t: Tablero, infos: seq<Coordenada>, lo: real, hi: real)
    requires Bien(t) && TodosEnRango(t, infos)
    requires exists v :: v in infos && EspaciosLibres(t, v) > 0
    requires forall v :: v in infos && EspaciosLibres(t, v) > 0 ==> lo <= RazonLocal(t, v) <= hi
    ensures lo <= ProbabilidadAproximada(t, infos) <= hi
  {
    var ts := Terminos(t, infos);
    assert |ts| > 0 && forall p :: p in ts ==> p.1 > 0.0 && lo <= p.0 <= hi;
    MediaEntre(ts, lo, hi);
  }

  lemma MediaEntre(ts: seq<(real, real)>, lo: real, hi: real)
    requires |ts| > 0
    requires forall p :: p in ts ==> p.1 > 0.0 && lo <= p.0 <= hi
    ensures SumaPesos(ts) > 0.0 && lo <= SumaPonderada(ts) / SumaPesos(ts) <= hi
  {
    SumaPesosPositiva(ts);
    SumasEntre(ts, lo, hi);
    DividirEntre(SumaPonderada(ts), SumaPesos(ts), lo, hi);
  }

  // ---------------------------------------------------------------------------
  // The probability of one cell

  /** Relevant sets larger than this use the approximation. */
  const MaxRelevantes: nat := 12

  /** The constraint-satisfaction estimate for `x`: the approximation when
      the relevant set is too large, the exact count otherwise. */
  function ProbabilidadCSP(t: Tablero, x: Coordenada, infos: seq<Coordenada>): real
    requires Bien(t) && EnRango(t, x) && TodosEnRango(t, infos)
  {
    var lista := Relevantes(t, x, infos);
    if |lista| > MaxRelevantes then ProbabilidadAproximada(t, infos)
    else ProporcionExacta(t, x, lista, infos)
  }

  /** Valid assignments of `lista` mining `x` over all valid assignments, and
      the global ratio when none is valid. The value is a probability; it is
      0 exactly when no valid assignment mines `x` and 1 exactly when every
      one does. */
  function ProporcionExacta(t: Tablero, x: Coordenada, lista: seq<Coordenada>, infos: seq<Coordenada>): (r: real)
    requires Bien(t) && TodosEnRango(t, infos)
    ensures var total := Pow2(|lista|);
      var rs := Restricciones(t, infos);
      var v := ValidasHasta(rs, lista, total);
      var o := ObjetivoHasta(rs, x, lista, total);
      (v == 0 ==> r == ProbabilidadBase(t)) &&
      (v > 0 ==> 0.0 <= r <= 1.0 && (r == 0.0 <==> o == 0) && (r == 1.0 <==> o == v))
  {
    var total := Pow2(|lista|);
    var rs := Restricciones(t, infos);
    var validas := ValidasHasta(rs, lista, total);
    var objetivo := ObjetivoHasta(rs, x, lista, total);
    ObjetivoAcotado(rs, x, lista, total);
    if validas == 0 then ProbabilidadBase(t)
    else
      Fraccion(objetivo, validas);
      objetivo as real / validas as real
  }

  lemma Fraccion(o: nat, v: nat)
    requires 0 < v && o <= v
    ensures 0.0 <= o as real / v as real <= 1.0
    ensures o as real / v as real == 0.0 <==> o == 0
    ensures o as real / v as real == 1.0 <==> o == v
  {
    var q := o as real / v as real;
    DividirEntre(o as real, v as real, 0.0, 1.0);
    Cociente(o as real, v as real);
    if q == 1.0 {
      assert q * v as real == v as real;
    }
    if o == v {
      UnoPorUno(v as real);
    }
  }

  lemma UnoPorUno(d: real)
    requires d > 0.0
    ensures d / d == 1.0
  {
  }

  /** The value the network reports for `x` given the cache: flagged cells
      are certain mines and revealed cells certain safe, before the cache is
      consulted; a cached value is returned as is; without informative
      neighbours the global ratio is used. */
  function ProbabilidadNodo(t: Tablero, cache: map<Coordenada, real>, x: Coordenada): real
    requires Bien(t) && EnRango(t, x)
  {
    var n := Celda(t, x);
    if n.estado == MARCADA then 1.0
    else if n.estado == REVELADA then 0.0
    else if x in cache then cache[x]
    else
      var infos := VecinosInformativos(t, x);
      if |infos| == 0 then ProbabilidadBase(t) else ProbabilidadCSP(t, x, infos)
  }

  /** The cache after computing the value for `x`: only a constraint
      estimate is stored. */
  function CacheTras(t: Tablero, cache: map<Coordenada, real>, x: Coordenada): map<Coordenada, real>
    requires Bien(t) && EnRango(t, x)
  {
    var n := Celda(t, x);
    if n.estado == MARCADA || n.estado == REVELADA || x in cache then cache
    else
      var infos := VecinosInformativos(t, x);
      if |infos| == 0 then cache else cache[x := ProbabilidadCSP(t, x, infos)]
  }

  /** A value once cached is returned again as long as the cell stays
      hidden, whatever the board has become in between. */
  lemma CacheEstable(t: Tablero, t2: Tablero, cache: map<Coordenada, real>, x: Coordenada)
    requires Bien(t) && EnRango(t, x) && Bien(t2) && EnRango(t2, x)
    requires Celda(t2, x).estado == DESCONOCIDA
    ensures var c := CacheTras(t, cache, x);
      x in c ==> ProbabilidadNodo(t2, c, x) == c[x]
  {
    var c := CacheTras(t, cache, x);
    var n2 := Celda(t2, x);
    assert n2.estado != MARCADA && n2.estado != REVELADA;
  }

  /** Computing a value never removes or alters an existing cache entry, and
      adds at most the entry for `x`. */
  lemma CacheCrece(t: Tablero, cache: map<Coordenada, real>, x: Coordenada)
    requires Bien(t) && EnRango(t, x)
    ensures var c := CacheTras(t, cache, x);
      (forall y :: y in cache ==> y in c && c[y] == cache[y]) &&
      (forall y :: y in c && y !in cache ==> y == x && c[x] == ProbabilidadNodo(t, cache, x))
  {
    var n := Celda(t, x);
    if n.estado != MARCADA && n.estado != REVELADA && x !in cache {
      var infos := VecinosInformativos(t, x);
      if |infos| > 0 {
        assert CacheTras(t, cache, x) == cache[x := ProbabilidadNodo(t, cache, x)];
      }
    }
  }

  /** A cached value is only consulted for `x` itself. */
  lemma ProbabilidadNodoLocal(t: Tablero, c1: map<Coordenada, real>, c2: map<Coordenada, real>, x: Coordenada)
    requires Bien(t) && EnRango(t, x)
    requires (x in c1 <==> x in c2) && (x in c1 ==> c1[x] == c2[x])
    ensures ProbabilidadNodo(t, c1, x) == ProbabilidadNodo(t, c2, x)
  {
  }

  // ---------------------------------------------------------------------------
  // The probability map

  /** One entry per cell of `hs`, in the same order, carrying its value in `valores`. */
  function Valorar(hs: seq<Coordenada>, valores: map<Coordenada, real>): (r: seq<ProbabilidadCasilla>)
    requires forall h :: h in hs ==> h in valores
    ensures |r| == |hs|
    ensures forall i :: 0 <= i < |r| ==> r[i] == ProbabilidadCasilla(hs[i], valores[hs[i]])
  {
    if hs == [] then []
    else
      var x := hs[|hs| - 1];
      Valorar(hs[..|hs| - 1], valores) + [ProbabilidadCasilla(x, valores[x])]
  }

  lemma ValorarAgregar(hs: seq<Coordenada>, valores: map<Coordenada, real>, x: Coordenada)
    requires forall h :: h in hs ==> h in valores
    requires x in valores
    ensures Valorar(hs + [x], valores) == Valorar(hs, valores) + [ProbabilidadCasilla(x, valores[x])]
  {
    assert (hs + [x])[..|hs|] == hs;
  }

  /** The hidden cells of the board in row-major order. */
  function Ocultas(t: Tablero): (r: seq<Coordenada>)
    requires Bien(t)
    ensures forall y :: y in r <==> EnRango(t, y) && Celda(t, y).estado == DESCONOCIDA
    ensures FilaMayor(r) && TodosEnRango(t, r)
  {
    FiltrarEstado(t, TodasCoordenadas(t), DESCONOCIDA)
  }

  /** The value the network reports for each hidden cell. */
  ghost function Valores(t: Tablero, cache: map<Coordenada, real>): (r: map<Coordenada, real>)
    requires Bien(t)
    ensures forall y :: y in r <==> EnRango(t, y) && Celda(t, y).estado == DESCONOCIDA
  {
    map y | y in Ocultas(t) :: ProbabilidadNodo(t, cache, y)
  }

  /** The entries of the probability map before sorting. */
  ghost function Mapa(t: Tablero, cache: map<Coordenada, real>): seq<ProbabilidadCasilla>
    requires Bien(t)
  {
    Valorar(Ocultas(t), Valores(t, cache))
  }

  predicate Ordenada(s: seq<ProbabilidadCasilla>) {
    forall i, j :: 0 <= i < j < |s| ==> s[i].probabilidad <= s[j].probabilidad
  }

  /** Inserts `e` before the first entry whose probability is not smaller. */
  function Insertar(e: ProbabilidadCasilla, s: seq<ProbabilidadCasilla>): (r: seq<ProbabilidadCasilla>)
    ensures multiset(r) == multiset(s) + multiset{e}
  {
    if s == [] || e.probabilidad <= s[0].probabilidad then [e] + s
    else
      assert s == [s[0]] + s[1..];
      [s[0]] + Insertar(e, s[1..])
  }

  lemma {:induction false} InsertarOrdenada(e: ProbabilidadCasilla, s: seq<ProbabilidadCasilla>)
    requires Ordenada(s)
    ensures Ordenada(Insertar(e, s))
    ensures Insertar(e, s)[0] == e || Insertar(e, s)[0] == s[0]
  {
    if s != [] && e.probabilidad > s[0].probabilidad {
      var resto := Insertar(e, s[1..]);
      InsertarOrdenada(e, s[1..]);
      assert resto[0].probabilidad >= s[0].probabilidad;
      var r := [s[0]] + resto;
      forall i, j | 0 <= i < j < |r| ensures r[i].probabilidad <= r[j].probabilidad {
        if i > 0 {
          assert r[i] == resto[i - 1] && r[j] == resto[j - 1];
        } else if j > 1 {
          assert resto[0].probabilidad <= resto[j - 1].probabilidad;
        }
      }
    }
  }

  /** Ascending order of probability, ties in their original order: the
      stable sort of the map. */
  function Ordenar(s: seq<ProbabilidadCasilla>): (r: seq<ProbabilidadCasilla>)
    ensures multiset(r) == multiset(s) && Ordenada(r)
  {
    if s == [] then []
    else
      assert s == [s[0]] + s[1..];
      var resto := Ordenar(s[1..]);
      InsertarOrdenada(s[0], resto);
      Insertar(s[0], resto)
  }

  /** The entries of `s` with probability `q`, in order. */
  function ConProbabilidad(s: seq<ProbabilidadCasilla>, q: real): seq<ProbabilidadCasilla> {
    if s == [] then []
    else (if s[0].probabilidad == q then [s[0]] else []) + ConProbabilidad(s[1..], q)
  }

  lemma {:induction false} InsertarEstable(e: ProbabilidadCasilla, s: seq<ProbabilidadCasilla>, q: real)
    ensures ConProbabilidad(Insertar(e, s), q) == (if e.probabilidad == q then [e] else []) + ConProbabilidad(s, q)
  {
    if s == [] || e.probabilidad <= s[0].probabilidad {
      assert ([e] + s)[1..] == s;
    } else {
      var r := Insertar(e, s);
      assert r == [s[0]] + Insertar(e, s[1..]);
      assert r[0] == s[0] && r[1..] == Insertar(e, s[1..]);
      InsertarEstable(e, s[1..], q);
      var cabeza := if s[0].probabilidad == q then [s[0]] else [];
      var nuevo := if e.probabilidad == q then [e] else [];
      assert ConProbabilidad(r, q) == cabeza + (nuevo + ConProbabilidad(s[1..], q));
      assert ConProbabilidad(s, q) == cabeza + ConProbabilidad(s[1..], q);
      assert cabeza == [] || nuevo == [];
    }
  }

  /** Sorting keeps entries of equal probability in their original order. */
  lemma {:induction false} OrdenarEstable(s: seq<ProbabilidadCasilla>, q: real)
    ensures ConProbabilidad(Ordenar(s), q) == ConProbabilidad(s, q)
  {
    if s != [] {
      OrdenarEstable(s[1..], q);
      InsertarEstable(s[0], Ordenar(s[1..]), q);
    }
  }

  /** The first entry of `s` with probability `q` is `s[i]` or comes before it. */
  lemma {:induction false} PrimeroConProbabilidad(s: seq<ProbabilidadCasilla>, q: real, i: nat)
    requires i < |s| && s[i].probabilidad == q
    ensures |ConProbabilidad(s, q)| > 0
    ensures ConProbabilidad(s, q)[0] in s[..i + 1]
  {
    if s[0].probabilidad != q {
      PrimeroConProbabilidad(s[1..], q, i - 1);
      assert s[1..][..i] == s[1..i + 1];
    }
  }

  /** Entries listed in strictly increasing row-major order of their cells. */
  predicate EnOrdenDeCeldas(s: seq<ProbabilidadCasilla>) {
    forall i, j :: 0 <= i < j < |s| ==> Antes(s[i].coordenada, s[j].coordenada)
  }

  /** After the stable sort the head has the least probability, and among
      entries of that probability it is the one whose cell comes first. */
  lemma PrimeroOrdenado(s: seq<ProbabilidadCasilla>)
    requires EnOrdenDeCeldas(s)
    ensures |Ordenar(s)| == |s|
    ensures |s| > 0 ==> Ordenar(s)[0] in s
    ensures |s| > 0 ==> forall e :: e in s ==> Ordenar(s)[0].probabilidad <= e.probabilidad
    ensures |s| > 0 ==> forall e :: e in s && Antes(e.coordenada, Ordenar(s)[0].coordenada) ==>
      Ordenar(s)[0].probabilidad < e.probabilidad
  {
    CabezaMinima(s);
    if |s| > 0 {
      forall e | e in s && Antes(e.coordenada, Ordenar(s)[0].coordenada)
        ensures Ordenar(s)[0].probabilidad < e.probabilidad
      {
        if e.probabilidad == Ordenar(s)[0].probabilidad {
          CabezaPrimera(s, e);
        }
      }
    }
  }

  lemma CabezaMinima(s: seq<ProbabilidadCasilla>)
    ensures |Ordenar(s)| == |s|
    ensures |s| > 0 ==> Ordenar(s)[0] in s
    ensures |s| > 0 ==> forall e :: e in s ==> Ordenar(s)[0].probabilidad <= e.probabilidad
  {
    var r := Ordenar(s);
    assert |r| == |multiset(r)| == |multiset(s)| == |s|;
    if |s| > 0 {
      assert r[0] in multiset(r);
      forall e | e in s ensures r[0].probabilidad <= e.probabilidad {
        assert e in multiset(r);
        var k :| 0 <= k < |r| && r[k] == e;
      }
    }
  }

  lemma CabezaPrimera(s: seq<ProbabilidadCasilla>, e: ProbabilidadCasilla)
    requires EnOrdenDeCeldas(s) && e in s && |Ordenar(s)| > 0
    requires e.probabilidad == Ordenar(s)[0].probabilidad
    ensures !Antes(e.coordenada, Ordenar(s)[0].coordenada)
  {
    var r := Ordenar(s);
    var q := e.probabilidad;
    var i :| 0 <= i < |s| && s[i] == e;
    PrimeroConProbabilidad(s, q, i);
    OrdenarEstable(s, q);
    assert ConProbabilidad(r, q)[0] == r[0];
    var k :| 0 <= k <= i && s[k] == r[0];
    if k < i {
      assert Antes(s[k].coordenada, s[i].coordenada);
    }
  }

  /** The map before sorting lists, in row-major order, one entry per
      hidden cell carrying the value the network reports for it. */
  lemma MapaEntradas(t: Tablero, cache: map<Coordenada, real>)
    requires Bien(t)
    ensures var s := Mapa(t, cache);
      EnOrdenDeCeldas(s) &&
      (|s| == 0 <==> forall y :: EnRango(t, y) ==> Celda(t, y).estado != DESCONOCIDA) &&
      (forall e :: e in s ==>
        EnRango(t, e.coordenada) && Celda(t, e.coordenada).estado == DESCONOCIDA &&
        e.probabilidad == ProbabilidadNodo(t, cache, e.coordenada)) &&
      (forall y :: EnRango(t, y) && Celda(t, y).estado == DESCONOCIDA ==>
        ProbabilidadCasilla(y, ProbabilidadNodo(t, cache, y)) in s)
  {
    var hs := Ocultas(t);
    var vals := Valores(t, cache);
    ValorarEntradas(hs, vals);
    if |hs| == 0 {
      forall y | EnRango(t, y) ensures Celda(t, y).estado != DESCONOCIDA {
        assert y !in hs;
      }
    }
  }

  /** Valuing cells listed in row-major order gives entries in that order,
      one per cell, each carrying the cell's value. */
  lemma ValorarEntradas(hs: seq<Coordenada>, valores: map<Coordenada, real>)
    requires forall h :: h in hs ==> h in valores
    requires FilaMayor(hs)
    ensures var s := Valorar(hs, valores);
      EnOrdenDeCeldas(s) && |s| == |hs| &&
      (forall e :: e in s ==> e.coordenada in hs && e.probabilidad == valores[e.coordenada]) &&
      (forall h :: h in hs ==> ProbabilidadCasilla(h, valores[h]) in s)
  {
    var s := Valorar(hs, valores);
    forall h | h in hs ensures ProbabilidadCasilla(h, valores[h]) in s {
      var i :| 0 <= i < |hs| && hs[i] == h;
      assert s[i] in s;
    }
  }

  /** The sorted map is empty exactly when no cell is hidden; otherwise its
      head is a hidden cell of least probability, and no hidden cell of the
      same probability comes before it in row-major order. */
  lemma MejorDelMapa(t: Tablero, cache: map<Coordenada, real>)
    requires Bien(t)
    ensures var m := Ordenar(Mapa(t, cache));
      |m| == 0 <==> forall y :: EnRango(t, y) ==> Celda(t, y).estado != DESCONOCIDA
    ensures var m := Ordenar(Mapa(t, cache));
      |m| > 0 ==>
        EnRango(t, m[0].coordenada) && Celda(t, m[0].coordenada).estado == DESCONOCIDA &&
        m[0].probabilidad == ProbabilidadNodo(t, cache, m[0].coordenada)
    ensures var m := Ordenar(Mapa(t, cache));
      |m| > 0 ==> forall y :: EnRango(t, y) && Celda(t, y).estado == DESCONOCIDA ==>
        m[0].probabilidad <= ProbabilidadNodo(t, cache, y) &&
        (Antes(y, m[0].coordenada) ==> m[0].probabilidad < ProbabilidadNodo(t, cache, y))
  {
    var s := Mapa(t, cache);
    MapaEntradas(t, cache);
    PrimeroOrdenado(s);
    var m := Ordenar(s);
    if |m| > 0 {
      forall y | EnRango(t, y) && Celda(t, y).estado == DESCONOCIDA
        ensures m[0].probabilidad <= ProbabilidadNodo(t, cache, y)
        ensures Antes(y, m[0].coordenada) ==> m[0].probabilidad < ProbabilidadNodo(t, cache, y)
      {
        var e := ProbabilidadCasilla(y, ProbabilidadNodo(t, cache, y));
        assert e in s;
      }
    }
  }

  /** The head of the sorted map: the cell the network recommends and its
      probability, or none and 0 when nothing is hidden. */
  ghost function MejorMovimiento(t: Tablero, cache: map<Coordenada, real>): (Option<Coordenada>, real)
    requires Bien(t)
  {
    var m := Ordenar(Mapa(t, cache));
    if |m| == 0 then (None, 0.0) else (Some(m[0].coordenada), m[0].probabilidad)
  }

  /** The best move is absent exactly when no cell is hidden, with
      probability 0 then; otherwise it is a hidden cell carrying its own
      estimate, no hidden cell has a lower estimate, and every hidden cell
      before it in row-major order has a strictly higher one. */
  lemma MejorMovimientoCorrecto(t: Tablero, cache: map<Coordenada, real>)
    requires Bien(t)
    ensures var (mejor, p) := MejorMovimiento(t, cache);
      (mejor.None? <==> forall y :: EnRango(t, y) ==> Celda(t, y).estado != DESCONOCIDA) &&
      (mejor.None? ==> p == 0.0) &&
      (mejor.Some? ==>
        EnRango(t, mejor.value) && Celda(t, mejor.value).estado == DESCONOCIDA &&
        p == ProbabilidadNodo(t, cache, mejor.value)) &&
      (mejor.Some? ==> forall y :: EnRango(t, y) && Celda(t, y).estado == DESCONOCIDA ==>
        p <= ProbabilidadNodo(t, cache, y) && (Antes(y, mejor.value) ==> p < ProbabilidadNodo(t, cache, y)))
  {
    MejorDelMapa(t, cache);
  }

  /** `g` has one value per cell of the board. */
  ghost predicate Rejilla(t: Tablero, g: seq<seq<real>>) {
    |g| == t.filas && forall f :: 0 <= f < t.filas ==> |g[f]| == t.columnas
  }

  /** What the map computation has produced so far: the listed entries, the
      cache and the recorded value of every cell. */
  datatype Recorrido = Recorrido(lista: seq<ProbabilidadCasilla>, cache: map<Coordenada, real>, probs: seq<seq<real>>)

  /** Visiting one cell: a hidden cell gets its value computed (which may
      cache it), recorded and listed; any other cell is passed over. */
  function Visitar(t: Tablero, e: Recorrido, x: Coordenada): (r: Recorrido)
    requires Bien(t) && EnRango(t, x) && Rejilla(t, e.probs)
    ensures Rejilla(t, r.probs)
  {
    if Celda(t, x).estado != DESCONOCIDA then e
    else
      var p := ProbabilidadNodo(t, e.cache, x);
      Recorrido(e.lista + [ProbabilidadCasilla(x, p)], CacheTras(t, e.cache, x),
                e.probs[x.fila := e.probs[x.fila][x.columna := p]])
  }

  /** Visiting the cells of `xs` in order. */
  function Recorrer(t: Tablero, e: Recorrido, xs: seq<Coordenada>): (r: Recorrido)
    requires Bien(t) && TodosEnRango(t, xs) && Rejilla(t, e.probs)
    ensures Rejilla(t, r.probs)
  {
    if xs == [] then e
    else
      var k := |xs| - 1;
      Visitar(t, Recorrer(t, e, xs[..k]), xs[k])
  }

  /** Recording `p` for `x` changes the value of `x` and of no other cell. */
  lemma Fijar(t: Tablero, probs: seq<seq<real>>, x: Coordenada, p: real)
    requires Forma(t) && Rejilla(t, probs) && EnRango(t, x)
    ensures var q := probs[x.fila := probs[x.fila][x.columna := p]];
      Rejilla(t, q) &&
      forall y :: EnRango(t, y) ==> q[y.fila][y.columna] == if y == x then p else probs[y.fila][y.columna]
  {
  }

  /** The list holds the hidden cells of `xs` in order with their values. */
  ghost predicate ListaRegistrada(t: Tablero, cache0: map<Coordenada, real>, xs: seq<Coordenada>,
                                  lista: seq<ProbabilidadCasilla>)
    requires Bien(t) && TodosEnRango(t, xs)
  {
    lista == Valorar(FiltrarEstado(t, xs, DESCONOCIDA), Valores(t, cache0))
  }

  /** `cache0` is kept and the only new entries are hidden cells of `xs`
      holding their value. */
  ghost predicate CacheRegistrada(t: Tablero, cache0: map<Coordenada, real>, xs: seq<Coordenada>,
                                  cache: map<Coordenada, real>)
    requires Bien(t)
  {
    (forall y :: y in cache0 ==> y in cache && cache[y] == cache0[y]) &&
    (forall y :: y in cache && y !in cache0 ==>
      y in xs && EnRango(t, y) && Celda(t, y).estado == DESCONOCIDA && cache[y] == ProbabilidadNodo(t, cache0, y))
  }

  /** Each hidden cell of `xs` records its value and every other cell keeps
      its value from `p0`. */
  ghost predicate ProbsRegistradas(t: Tablero, cache0: map<Coordenada, real>, p0: seq<seq<real>>,
                                   xs: seq<Coordenada>, probs: seq<seq<real>>)
    requires Bien(t)
  {
    Rejilla(t, p0) && Rejilla(t, probs) &&
    forall y :: EnRango(t, y) ==>
      probs[y.fila][y.columna] ==
        if y in xs && Celda(t, y).estado == DESCONOCIDA then ProbabilidadNodo(t, cache0, y) else p0[y.fila][y.columna]
  }

  /** A hidden cell not visited before is valued as with the starting cache. */
  lemma ValorSinVisitar(t: Tablero, cache0: map<Coordenada, real>, xs: seq<Coordenada>,
                        cache: map<Coordenada, real>, x: Coordenada)
    requires Bien(t) && EnRango(t, x) && x !in xs && CacheRegistrada(t, cache0, xs, cache)
    ensures ProbabilidadNodo(t, cache, x) == ProbabilidadNodo(t, cache0, x)
  {
    ProbabilidadNodoLocal(t, cache, cache0, x);
  }

  lemma VisitarLista(t: Tablero, cache0: map<Coordenada, real>, xs: seq<Coordenada>, e: Recorrido, x: Coordenada)
    requires Bien(t) && TodosEnRango(t, xs) && EnRango(t, x) && x !in xs && Rejilla(t, e.probs)
    requires ListaRegistrada(t, cache0, xs, e.lista) && CacheRegistrada(t, cache0, xs, e.cache)
    ensures ListaRegistrada(t, cache0, xs + [x], Visitar(t, e, x).lista)
  {
    FiltrarEstadoAgregar(t, xs, x, DESCONOCIDA);
    if Celda(t, x).estado == DESCONOCIDA {
      var vals := Valores(t, cache0);
      ValorSinVisitar(t, cache0, xs, e.cache, x);
      ValorarAgregar(FiltrarEstado(t, xs, DESCONOCIDA), vals, x);
    }
  }

  lemma VisitarCache(t: Tablero, cache0: map<Coordenada, real>, xs: seq<Coordenada>, e: Recorrido, x: Coordenada)
    requires Bien(t) && EnRango(t, x) && x !in xs && Rejilla(t, e.probs)
    requires CacheRegistrada(t, cache0, xs, e.cache)
    ensures CacheRegistrada(t, cache0, xs + [x], Visitar(t, e, x).cache)
  {
    if Celda(t, x).estado == DESCONOCIDA {
      ValorSinVisitar(t, cache0, xs, e.cache, x);
      CacheCrece(t, e.cache, x);
    }
  }

  lemma VisitarProbs(t: Tablero, cache0: map<Coordenada, real>, p0: seq<seq<real>>, xs: seq<Coordenada>,
                     e: Recorrido, x: Coordenada)
    requires Bien(t) && EnRango(t, x) && x !in xs
    requires CacheRegistrada(t, cache0, xs, e.cache) && ProbsRegistradas(t, cache0, p0, xs, e.probs)
    ensures ProbsRegistradas(t, cache0, p0, xs + [x], Visitar(t, e, x).probs)
  {
    if Celda(t, x).estado == DESCONOCIDA {
      var p := ProbabilidadNodo(t, e.cache, x);
      ValorSinVisitar(t, cache0, xs, e.cache, x);
      Fijar(t, e.probs, x, p);
    }
  }

  /** Splitting off the last of distinct cells. */
  lemma UltimoDistinto(xs: seq<Coordenada>)
    requires Distintos(xs) && xs != []
    ensures var k := |xs| - 1;
      Distintos(xs[..k]) && xs[k] !in xs[..k] && xs[..k] + [xs[k]] == xs
  {
  }

  /** Visiting distinct cells keeps the cache registered. */
  lemma {:induction false} RecorrerCache(t: Tablero, cache0: map<Coordenada, real>, p0: seq<seq<real>>,
                                         xs: seq<Coordenada>)
    requires Bien(t) && TodosEnRango(t, xs) && Distintos(xs) && Rejilla(t, p0)
    ensures CacheRegistrada(t, cache0, xs, Recorrer(t, Recorrido([], cache0, p0), xs).cache)
  {
    if xs != [] {
      var k := |xs| - 1;
      UltimoDistinto(xs);
      RecorrerCache(t, cache0, p0, xs[..k]);
      VisitarCache(t, cache0, xs[..k], Recorrer(t, Recorrido([], cache0, p0), xs[..k]), xs[k]);
    }
  }

  /** Visiting distinct cells lists their hidden ones with their values. */
  lemma {:induction false} RecorrerLista(t: Tablero, cache0: map<Coordenada, real>, p0: seq<seq<real>>,
                                         xs: seq<Coordenada>)
    requires Bien(t) && TodosEnRango(t, xs) && Distintos(xs) && Rejilla(t, p0)
    ensures ListaRegistrada(t, cache0, xs, Recorrer(t, Recorrido([], cache0, p0), xs).lista)
  {
    if xs != [] {
      var k := |xs| - 1;
      UltimoDistinto(xs);
      RecorrerLista(t, cache0, p0, xs[..k]);
      RecorrerCache(t, cache0, p0, xs[..k]);
      VisitarLista(t, cache0, xs[..k], Recorrer(t, Recorrido([], cache0, p0), xs[..k]), xs[k]);
    }
  }

  /** Visiting distinct cells records the value of their hidden ones. */
  lemma {:induction false} RecorrerProbs(t: Tablero, cache0: map<Coordenada, real>, p0: seq<seq<real>>,
                                         xs: seq<Coordenada>)
    requires Bien(t) && TodosEnRango(t, xs) && Distintos(xs) && Rejilla(t, p0)
    ensures ProbsRegistradas(t, cache0, p0, xs, Recorrer(t, Recorrido([], cache0, p0), xs).probs)
  {
    if xs != [] {
      var k := |xs| - 1;
      UltimoDistinto(xs);
      RecorrerProbs(t, cache0, p0, xs[..k]);
      RecorrerCache(t, cache0, p0, xs[..k]);
      VisitarProbs(t, cache0, p0, xs[..k], Recorrer(t, Recorrido([], cache0, p0), xs[..k]), xs[k]);
    }
  }

  /** After visiting every cell in row-major order the list is the
      probability map, the starting cache is kept with at most hidden cells
      added at their value, and every hidden cell records its value. */
  lemma RecorridoCompleto(t: Tablero, cache0: map<Coordenada, real>, p0: seq<seq<real>>)
    requires Bien(t) && Rejilla(t, p0)
    ensures var e := Recorrer(t, Recorrido([], cache0, p0), TodasCoordenadas(t));
      e.lista == Mapa(t, cache0) &&
      (forall y :: y in cache0 ==> y in e.cache && e.cache[y] == cache0[y]) &&
      (forall y :: y in e.cache && y !in cache0 ==>
        EnRango(t, y) && Celda(t, y).estado == DESCONOCIDA && e.cache[y] == ProbabilidadNodo(t, cache0, y)) &&
      (forall y :: EnRango(t, y) ==>
        e.probs[y.fila][y.columna] ==
          if Celda(t, y).estado == DESCONOCIDA then ProbabilidadNodo(t, cache0, y) else p0[y.fila][y.columna])
  {
    var todos := TodasCoordenadas(t);
    FilaMayorDistintos(todos);
    RecorrerLista(t, cache0, p0, todos);
    RecorrerCache(t, cache0, p0, todos);
    RecorrerProbs(t, cache0, p0, todos);
  }

  /** The whole traversal, in row-major order, from the cache `cache` and
      the stored values `probs`. */
  ghost function RecorridoTotal(t: Tablero, cache: map<Coordenada, real>, probs: seq<seq<real>>): Recorrido
    requires Bien(t) && Rejilla(t, probs)
  {
    Recorrer(t, Recorrido([], cache, probs), TodasCoordenadas(t))
  }

  // ---------------------------------------------------------------------------
  // The network

  class RedBayesiana {
    const grafo: GrafoTablero
    /** Constraint estimates already computed, by cell. */
    var cache: map<Coordenada, real>

    constructor (grafo: GrafoTablero)
      ensures this.grafo == grafo && cache == map[]
    {
      this.grafo := grafo;
      cache := map[];
    }

    /** The mine probability of the node at `x`, caching constraint estimates. */
    method CalcularProbabilidadBayesiana(x: Coordenada) returns (p: real)
      requires grafo.Valid() && EnRango(grafo.Vista(), x)
      modifies this
      ensures p == ProbabilidadNodo(grafo.Vista(), old(cache), x)
      ensures cache == CacheTras(grafo.Vista(), old(cache), x)
    {
      var t := grafo.Vista();
      var n := Celda(t, x);
      if n.estado == MARCADA {
        return 1.0;
      }
      if n.estado == REVELADA {
        return 0.0;
      }
      if x in cache {
        return cache[x];
      }
      var infos := VecinosInformativos(t, x);
      if |infos| == 0 {
        return ProbabilidadBase(t);
      }
      p := CalcularProbabilidadCSP(t, x, infos);
      cache := cache[x := p];
    }

    /** Enumerates every assignment of the relevant cells (bit `i` of the mask
        mines the `i`-th cell) unless there are more than `MaxRelevantes`. */
    static method CalcularProbabilidadCSP(t: Tablero, x: Coordenada, infos: seq<Coordenada>) returns (p: real)
      requires Bien(t) && EnRango(t, x) && TodosEnRango(t, infos)
      ensures p == ProbabilidadCSP(t, x, infos)
    {
      var lista := NodosRelevantes(t, x, infos);
      if |lista| > MaxRelevantes {
        p := CalcularProbabilidadAproximada(t, infos);
        return;
      }
      var validas, objetivo := ContarConfiguraciones(t, x, lista, infos);
      if validas == 0 {
        p := ProbabilidadBase(t);
      } else {
        p := objetivo as real / validas as real;
      }
    }

    /** Counts, over every mask of `lista`, the valid assignments and the
        valid assignments that mine `x`. */
    static method ContarConfiguraciones(t: Tablero, x: Coordenada, lista: seq<Coordenada>, infos: seq<Coordenada>)
      returns (validas: int, objetivo: int)
      requires Bien(t) && TodosEnRango(t, infos)
      ensures validas == ValidasHasta(Restricciones(t, infos), lista, Pow2(|lista|))
      ensures objetivo == ObjetivoHasta(Restricciones(t, infos), x, lista, Pow2(|lista|))
    {
      validas, objetivo := 0, 0;
      var total := Pow2(|lista|);
      ghost var rs := Restricciones(t, infos);
      var mask := 0;
      while mask < total
        invariant 0 <= mask <= total
        invariant validas == ValidasHasta(rs, lista, mask)
        invariant objetivo == ObjetivoHasta(rs, x, lista, mask)
      {
        validas, objetivo := ContarMascara(t, x, lista, infos, mask, validas, objetivo);
        mask := mask + 1;
      }
    }

    /** One assignment of the enumeration: counted when it satisfies the
        constraints, and counted for the target too when it mines it. */
    static method ContarMascara(t: Tablero, x: Coordenada, lista: seq<Coordenada>, infos: seq<Coordenada>, mask: nat,
                                validas: int, objetivo: int)
      returns (validas2: int, objetivo2: int)
      requires Bien(t) && TodosEnRango(t, infos)
      requires validas == ValidasHasta(Restricciones(t, infos), lista, mask)
      requires objetivo == ObjetivoHasta(Restricciones(t, infos), x, lista, mask)
      ensures validas2 == ValidasHasta(Restricciones(t, infos), lista, mask + 1)
      ensures objetivo2 == ObjetivoHasta(Restricciones(t, infos), x, lista, mask + 1)
    {
      ValidasPaso(Restricciones(t, infos), lista, mask);
      ObjetivoPaso(Restricciones(t, infos), x, lista, mask);
      validas2, objetivo2 := validas, objetivo;
      var config := Configurar(lista, mask);
      var ok := VerificaRestricciones(t, config, infos);
      if ok {
        validas2 := validas2 + 1;
        if x in config {
          objetivo2 := objetivo2 + 1;
        }
      }
    }

    /** The cells of `lista` whose bit is set in `mask`. */
    static method Configurar(lista: seq<Coordenada>, mask: nat) returns (config: set<Coordenada>)
      ensures config == Configuracion(lista, mask)
    {
      config := {};
      var i := 0;
      while i < |lista|
        invariant 0 <= i <= |lista|
        invariant config == ConfigHasta(lista, mask, i)
      {
        if Bit(mask, i) {
          config := config + {lista[i]};
        }
        i := i + 1;
      }
      ConfigHastaCompleta(lista, mask);
    }

    /** The target followed by the hidden neighbours of the informative
        neighbours, each once, in order of discovery. */
    static method NodosRelevantes(t: Tablero, x: Coordenada, infos: seq<Coordenada>) returns (lista: seq<Coordenada>)
      requires Bien(t) && EnRango(t, x) && TodosEnRango(t, infos)
      ensures lista == Relevantes(t, x, infos)
    {
      ghost var ls := Vecindades(t, infos);
      lista := [x];
      var k := 0;
      while k < |infos|
        invariant 0 <= k <= |infos|
        invariant lista == RelevantesHasta(t, x, ls, k)
      {
        var vs := VecinosDe(t, infos[k]);
        assert vs == ls[k];
        lista := AgregarDesconocidos(t, lista, vs);
        k := k + 1;
      }
      assert lista == RelevantesHasta(t, x, ls, |ls|);
    }

    /** Adds to `lista` each hidden member of `vs` it does not hold yet. */
    static method AgregarDesconocidos(t: Tablero, lista: seq<Coordenada>, vs: seq<Coordenada>) returns (r: seq<Coordenada>)
      requires Forma(t) && TodosEnRango(t, vs)
      ensures r == AgregarOcultas(t, lista, vs, |vs|)
    {
      r := lista;
      var j := 0;
      while j < |vs|
        invariant 0 <= j <= |vs|
        invariant r == AgregarOcultas(t, lista, vs, j)
      {
        var v := vs[j];
        if Celda(t, v).estado == DESCONOCIDA && v !in r {
          r := r + [v];
        }
        j := j + 1;
      }
    }

    /** Whether the assignment satisfies every informative neighbour: each
        neighbour's label, flags and neighbour list give its constraint, and
        the constraints are checked in order. */
    static method VerificaRestricciones(t: Tablero, config: set<Coordenada>, infos: seq<Coordenada>) returns (ok: bool)
      requires Bien(t) && TodosEnRango(t, infos)
      ensures ok == Valida(Restricciones(t, infos), config)
    {
      var rs := Restricciones(t, infos);
      ok := Satisfacen(rs, config);
    }

    /** Checks the constraints in order and stops at the first that fails. */
    static method Satisfacen(rs: seq<Restriccion>, config: set<Coordenada>) returns (ok: bool)
      ensures ok == Valida(rs, config)
    {
      var k := 0;
      while k < |rs|
        invariant 0 <= k <= |rs|
        invariant forall j :: 0 <= j < k ==> Satisface(rs[j], config)
      {
        var r := rs[k];
        if MinasEnConfig(r.vecinos, config) != r.faltan {
          assert r in rs && !Satisface(r, config);
          return false;
        }
        k := k + 1;
      }
      return true;
    }

    /** The weighted mean of the local ratios, weights `1 / (free + 1)`. */
    static method CalcularProbabilidadAproximada(t: Tablero, infos: seq<Coordenada>) returns (p: real)
      requires Bien(t) && TodosEnRango(t, infos)
      ensures p == ProbabilidadAproximada(t, infos)
    {
      var ts := ReunirTerminos(t, infos);
      if |ts| == 0 {
        p := ProbabilidadBase(t);
        return;
      }
      var sumaPonderada, sumaPesos := Sumar(ts);
      SumaPesosPositiva(ts);
      p := sumaPonderada / sumaPesos;
    }

    /** The ratio and weight of every number cell of `infos` with hidden
        neighbours left, in order. */
    static method ReunirTerminos(t: Tablero, infos: seq<Coordenada>) returns (ts: seq<(real, real)>)
      requires Bien(t) && TodosEnRango(t, infos)
      ensures ts == Terminos(t, infos)
    {
      ts := [];
      var k := 0;
      while k < |infos|
        invariant 0 <= k <= |infos|
        invariant ts == Terminos(t, infos[..k])
      {
        var v := infos[k];
        TerminosAgregar(t, infos, k);
        if EspaciosLibres(t, v) > 0 {
          ts := ts + [(RazonLocal(t, v), Peso(t, v))];
        }
        k := k + 1;
      }
      assert infos[..k] == infos;
    }

    /** The two reductions of the approximation: the weighted sum of the
        ratios and the sum of the weights. */
    static method Sumar(ts: seq<(real, real)>) returns (sumaPonderada: real, sumaPesos: real)
      ensures sumaPonderada == SumaPonderada(ts) && sumaPesos == SumaPesos(ts)
    {
      sumaPonderada := 0.0;
      var i := 0;
      while i < |ts|
        invariant 0 <= i <= |ts|
        invariant sumaPonderada == SumaPonderada(ts[..i])
      {
        assert ts[..i + 1][..i] == ts[..i];
        sumaPonderada := sumaPonderada + ts[i].0 * ts[i].1;
        i := i + 1;
      }
      sumaPesos := 0.0;
      i := 0;
      while i < |ts|
        invariant 0 <= i <= |ts|
        invariant sumaPesos == SumaPesos(ts[..i])
      {
        assert ts[..i + 1][..i] == ts[..i];
        sumaPesos := sumaPesos + ts[i].1;
        i := i + 1;
      }
      assert ts[..i] == ts;
    }

    /** Computes and records the probability of every hidden node, row by
        row, and returns the entries sorted by ascending probability (ties
        in row-major order). */
    method CalcularMapaProbabilidades() returns (mapa: seq<ProbabilidadCasilla>)
      requires grafo.Valid()
      modifies this, grafo
      ensures grafo.Valid() && grafo.Vista() == old(grafo.Vista())
      ensures var e := Recorrer(grafo.Vista(), Recorrido([], old(cache), old(grafo.probabilidades)),
                                TodasCoordenadas(grafo.Vista()));
        mapa == Ordenar(e.lista) && cache == e.cache && grafo.probabilidades == e.probs
      ensures mapa == Ordenar(Mapa(grafo.Vista(), old(cache)))
    {
      var t := grafo.Vista();
      ghost var e0 := Recorrido([], cache, grafo.probabilidades);
      var todos := TodasCoordenadas(t);
      var lista: seq<ProbabilidadCasilla> := [];
      var i := 0;
      assert todos[..0] == [];
      while i < |todos|
        invariant 0 <= i <= |todos|
        invariant grafo.Valid() && grafo.Vista() == t
        invariant Recorrido(lista, cache, grafo.probabilidades) == Recorrer(t, e0, todos[..i])
      {
        assert todos[..i + 1][..i] == todos[..i];
        lista := VisitarCelda(t, todos[i], lista);
        i := i + 1;
      }
      assert todos[..i] == todos;
      RecorridoCompleto(t, e0.cache, e0.probs);
      mapa := Ordenar(lista);
    }

    /** One cell of the map: a hidden node has its probability computed,
        recorded and listed; any other is passed over. */
    method VisitarCelda(t: Tablero, x: Coordenada, lista: seq<ProbabilidadCasilla>) returns (lista2: seq<ProbabilidadCasilla>)
      requires grafo.Valid() && grafo.Vista() == t && EnRango(t, x)
      modifies this, grafo
      ensures grafo.Valid() && grafo.Vista() == t
      ensures Recorrido(lista2, cache, grafo.probabilidades) ==
        Visitar(t, Recorrido(lista, old(cache), old(grafo.probabilidades)), x)
    {
      if Celda(t, x).estado != DESCONOCIDA {
        return lista;
      }
      var p := CalcularProbabilidadBayesiana(x);
      grafo.FijarProbabilidad(x, p);
      lista2 := lista + [ProbabilidadCasilla(x, p)];
    }

    /** The hidden node of least probability (the first in row-major order
        among equals), or none when nothing is hidden. */
    method ObtenerMejorMovimiento() returns (mejor: Option<Coordenada>, probabilidad: real)
      requires grafo.Valid()
      modifies this, grafo
      ensures grafo.Valid() && grafo.Vista() == old(grafo.Vista())
      ensures mejor == MejorMovimiento(grafo.Vista(), old(cache)).0
      ensures probabilidad == MejorMovimiento(grafo.Vista(), old(cache)).1
      ensures var e := RecorridoTotal(grafo.Vista(), old(cache), old(grafo.probabilidades));
        cache == e.cache && grafo.probabilidades == e.probs
    {
      var mapa := CalcularMapaProbabilidades();
      if |mapa| == 0 {
        return None, 0.0;
      }
      mejor := Some(mapa[0].coordenada);
      probabilidad := mapa[0].probabilidad;
    }

    /** Forgets every cached estimate. */
    method LimpiarCache()
      modifies this
      ensures cache == map[]
    {
      cache := map[];
    }
  }
}
