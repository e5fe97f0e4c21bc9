/** The game controller: starts a game, plays the engine's moves or the
    player's, reveals cells with flood fill, flags cells and decides when the
    game is won or lost. The controller's effect on the board and on its own
    counters is specified by pure functions over a `Partida` value; the
    controller's methods are proved to follow them. */
module Juego {
  import opened Tipos
  import opened Grafo
  import opened Bayesiano
  import opened Motor

  datatype EstadoJuego = NO_INICIADO | EN_CURSO | GANADO | PERDIDO

  // ---------------------------------------------------------------------------
  // Changing one cell

  /** `t` with the cell at `x` put in state `e`. */
  function ConEstado(t: Tablero, x: Coordenada, e: EstadoCasilla): (r: Tablero)
    requires Bien(t) && EnRango(t, x)
    ensures Bien(r) && r.filas == t.filas && r.columnas == t.columnas && r.totalMinas == t.totalMinas
    ensures forall y :: EnRango(t, y) ==> Celda(r, y) == if y == x then Celda(t, x).(estado := e) else Celda(t, y)
  {
    BienConNodo(t, x, Celda(t, x).(estado := e));
    ConNodo(t, x, Celda(t, x).(estado := e))
  }

  /** Changing one cell's state moves it from the count of its old state to
      the count of its new one. */
  lemma ContarConEstado(t: Tablero, x: Coordenada, e: EstadoCasilla, c: EstadoCasilla)
    requires Bien(t) && EnRango(t, x)
    ensures Contar(ConEstado(t, x, e), c) + (if Celda(t, x).estado == c then 1 else 0)
         == Contar(t, c) + (if e == c then 1 else 0)
  {
    ContarCambio(t, ConEstado(t, x, e), x, c);
  }

  /** A hidden cell without a mine: what flood fill may open. */
  predicate Oculta(t: Tablero, y: Coordenada)
    requires Forma(t) && EnRango(t, y)
  {
    Celda(t, y).estado == DESCONOCIDA && !Celda(t, y).tieneMina
  }

  // ---------------------------------------------------------------------------
  // Flood fill

  /** Flood fill reaching the cell `v`: a hidden mine-free cell is revealed
      and, when no mine surrounds it, its own neighbours are flooded; any
      other cell is left alone. Yields the board and the number of cells
      revealed. Each reveal lowers the number of hidden cells, which is why
      the recursion ends. */
  function PropagarCelda(t: Tablero, v: Coordenada): (r: (Tablero, nat))
    requires Bien(t) && EnRango(t, v)
    ensures Bien(r.0) && r.0.filas == t.filas && r.0.columnas == t.columnas && r.0.totalMinas == t.totalMinas
    ensures Contar(r.0, DESCONOCIDA) + r.1 == Contar(t, DESCONOCIDA)
    decreases Contar(t, DESCONOCIDA), 0, 0
  {
    if !Oculta(t, v) then (t, 0)
    else
      var t1 := ConEstado(t, v, REVELADA);
      ContarConEstado(t, v, REVELADA, DESCONOCIDA);
      if Celda(t1, v).numeroAdyacente == 0 then
        var a := PropagarLista(t1, VecinosDe(t1, v));
        (a.0, 1 + a.1)
      else (t1, 1)
  }

  /** Flood fill over the cells `vs` in order. */
  function PropagarLista(t: Tablero, vs: seq<Coordenada>): (r: (Tablero, nat))
    requires Bien(t) && TodosEnRango(t, vs)
    ensures Bien(r.0) && r.0.filas == t.filas && r.0.columnas == t.columnas && r.0.totalMinas == t.totalMinas
    ensures Contar(r.0, DESCONOCIDA) + r.1 == Contar(t, DESCONOCIDA)
    decreases Contar(t, DESCONOCIDA), 1, |vs|
  {
    if vs == [] then (t, 0)
    else
      var a := PropagarCelda(t, vs[0]);
      var b := PropagarLista(a.0, vs[1..]);
      (b.0, a.1 + b.1)
  }

  /** Flood fill over a non-empty list is flood fill from its first cell
      followed by flood fill over the rest. */
  lemma PropagarPaso(t: Tablero, vs: seq<Coordenada>)
    requires Bien(t) && TodosEnRango(t, vs) && vs != []
    ensures PropagarLista(t, vs).0 == PropagarLista(PropagarCelda(t, vs[0]).0, vs[1..]).0
    ensures PropagarLista(t, vs).1 == PropagarCelda(t, vs[0]).1 + PropagarLista(PropagarCelda(t, vs[0]).0, vs[1..]).1
  {
  }

  /** `t2` differs from `t` only in hidden mine-free cells that are now
      revealed. */
  ghost predicate Destapado(t: Tablero, t2: Tablero)
    requires Forma(t) && Forma(t2)
  {
    t2.filas == t.filas && t2.columnas == t.columnas &&
    forall y :: EnRango(t, y) ==>
      Celda(t2, y) == Celda(t, y) || (Oculta(t, y) && Celda(t2, y) == Celda(t, y).(estado := REVELADA))
  }

  lemma DestapadoTransitivo(t1: Tablero, t2: Tablero, t3: Tablero)
    requires Forma(t1) && Forma(t2) && Forma(t3) && Destapado(t1, t2) && Destapado(t2, t3)
    ensures Destapado(t1, t3)
  {
    forall y | EnRango(t1, y)
      ensures Celda(t3, y) == Celda(t1, y) || (Oculta(t1, y) && Celda(t3, y) == Celda(t1, y).(estado := REVELADA))
    {
      assert Celda(t2, y) == Celda(t1, y) || Celda(t2, y) == Celda(t1, y).(estado := REVELADA);
    }
  }

  /** Flood fill changes nothing but hidden mine-free cells, which it
      reveals: it never opens a mine and never touches a flagged cell. */
  lemma {:induction false} CeldaDestapa(t: Tablero, v: Coordenada)
    requires Bien(t) && EnRango(t, v)
    ensures Destapado(t, PropagarCelda(t, v).0)
    decreases Contar(t, DESCONOCIDA), 0, 0
  {
    if Oculta(t, v) {
      var t1 := ConEstado(t, v, REVELADA);
      ContarConEstado(t, v, REVELADA, DESCONOCIDA);
      if Celda(t1, v).numeroAdyacente == 0 {
        PropagarDestapa(t1, VecinosDe(t1, v));
        DestapadoTransitivo(t, t1, PropagarCelda(t, v).0);
      }
    }
  }

  lemma {:induction false} PropagarDestapa(t: Tablero, vs: seq<Coordenada>)
    requires Bien(t) && TodosEnRango(t, vs)
    ensures Destapado(t, PropagarLista(t, vs).0)
    decreases Contar(t, DESCONOCIDA), 1, |vs|
  {
    if vs != [] {
      var a := PropagarCelda(t, vs[0]);
      CeldaDestapa(t, vs[0]);
      PropagarDestapa(a.0, vs[1..]);
      DestapadoTransitivo(t, a.0, PropagarLista(t, vs).0);
    }
  }

  /** Flood fill reveals one more cell for each one it counts. */
  lemma {:induction false} CeldaCuenta(t: Tablero, v: Coordenada)
    requires Bien(t) && EnRango(t, v)
    ensures Contar(PropagarCelda(t, v).0, REVELADA) == Contar(t, REVELADA) + PropagarCelda(t, v).1
    decreases Contar(t, DESCONOCIDA), 0, 0
  {
    if Oculta(t, v) {
      var t1 := ConEstado(t, v, REVELADA);
      ContarConEstado(t, v, REVELADA, DESCONOCIDA);
      ContarConEstado(t, v, REVELADA, REVELADA);
      if Celda(t1, v).numeroAdyacente == 0 {
        PropagarCuenta(t1, VecinosDe(t1, v));
      }
    }
  }

  lemma {:induction false} PropagarCuenta(t: Tablero, vs: seq<Coordenada>)
    requires Bien(t) && TodosEnRango(t, vs)
    ensures Contar(PropagarLista(t, vs).0, REVELADA) == Contar(t, REVELADA) + PropagarLista(t, vs).1
    decreases Contar(t, DESCONOCIDA), 1, |vs|
  {
    if vs != [] {
      CeldaCuenta(t, vs[0]);
      PropagarCuenta(PropagarCelda(t, vs[0]).0, vs[1..]);
    }
  }

  /** After flood fill reaches `v`, `v` is no longer hidden and mine-free. */
  lemma CeldaCubre(t: Tablero, v: Coordenada)
    requires Bien(t) && EnRango(t, v)
    ensures !Oculta(PropagarCelda(t, v).0, v)
  {
    if Oculta(t, v) {
      var t1 := ConEstado(t, v, REVELADA);
      ContarConEstado(t, v, REVELADA, DESCONOCIDA);
      if Celda(t1, v).numeroAdyacente == 0 {
        PropagarDestapa(t1, VecinosDe(t1, v));
      }
    }
  }

  /** After flood fill over `vs` no cell of `vs` is still hidden and
      mine-free. */
  lemma {:induction false} PropagarCubre(t: Tablero, vs: seq<Coordenada>)
    requires Bien(t) && TodosEnRango(t, vs)
    ensures forall w :: w in vs ==> !Oculta(PropagarLista(t, vs).0, w)
    decreases |vs|
  {
    if vs != [] {
      var a := PropagarCelda(t, vs[0]);
      CeldaCubre(t, vs[0]);
      PropagarCubre(a.0, vs[1..]);
      PropagarDestapa(a.0, vs[1..]);
      assert forall w :: w in vs ==> w == vs[0] || w in vs[1..];
    }
  }

  /** No neighbour of `y` is left hidden and mine-free. */
  ghost predicate Abierto(t: Tablero, y: Coordenada)
    requires Bien(t) && EnRango(t, y)
  {
    forall w :: w in VecinosDe(t, y) ==> !Oculta(t, w)
  }

  lemma AbiertoPersiste(t: Tablero, t2: Tablero, y: Coordenada)
    requires Bien(t) && Bien(t2) && Destapado(t, t2) && EnRango(t, y) && Abierto(t, y)
    ensures Abierto(t2, y)
  {
    assert VecinosDe(t2, y) == VecinosDe(t, y);
  }

  /** Every cell flood fill opened with no mine around it has no hidden
      mine-free neighbour left: the opened region is closed. */
  ghost predicate Cerrado(t: Tablero, t2: Tablero)
    requires Bien(t) && Bien(t2) && t2.filas == t.filas && t2.columnas == t.columnas
  {
    forall y :: EnRango(t, y) && Oculta(t, y) && Celda(t2, y).estado == REVELADA && Celda(t, y).numeroAdyacente == 0 ==>
      Abierto(t2, y)
  }

  lemma {:induction false} CeldaCierra(t: Tablero, v: Coordenada)
    requires Bien(t) && EnRango(t, v)
    ensures Cerrado(t, PropagarCelda(t, v).0)
    decreases Contar(t, DESCONOCIDA), 0, 0
  {
    if Oculta(t, v) {
      var t1 := ConEstado(t, v, REVELADA);
      ContarConEstado(t, v, REVELADA, DESCONOCIDA);
      if Celda(t1, v).numeroAdyacente == 0 {
        var vs := VecinosDe(t1, v);
        var r := PropagarCelda(t, v).0;
        PropagarDestapa(t1, vs);
        PropagarCubre(t1, vs);
        PropagarCierra(t1, vs);
        assert VecinosDe(r, v) == vs;
        forall y | EnRango(t, y) && Oculta(t, y) && Celda(r, y).estado == REVELADA && Celda(t, y).numeroAdyacente == 0
          ensures Abierto(r, y)
        {
          if y != v {
            assert Oculta(t1, y);
          }
        }
      }
    }
  }

  lemma {:induction false} PropagarCierra(t: Tablero, vs: seq<Coordenada>)
    requires Bien(t) && TodosEnRango(t, vs)
    ensures Cerrado(t, PropagarLista(t, vs).0)
    decreases Contar(t, DESCONOCIDA), 1, |vs|
  {
    if vs != [] {
      var a := PropagarCelda(t, vs[0]).0;
      var r := PropagarLista(t, vs).0;
      CeldaDestapa(t, vs[0]);
      CeldaCierra(t, vs[0]);
      PropagarDestapa(a, vs[1..]);
      PropagarCierra(a, vs[1..]);
      forall y | EnRango(t, y) && Oculta(t, y) && Celda(r, y).estado == REVELADA && Celda(t, y).numeroAdyacente == 0
        ensures Abierto(r, y)
      {
        if Celda(a, y).estado == REVELADA {
          AbiertoPersiste(a, r, y);
        } else {
          assert Oculta(a, y);
        }
      }
    }
  }

  /** `z` was hidden and mine-free in `t` with no mine around it, and `t2`
      shows it revealed: a zero cell the flood opened. */
  ghost predicate CeroAbierto(t: Tablero, t2: Tablero, z: Coordenada)
    requires Forma(t) && Forma(t2) && t2.filas == t.filas && t2.columnas == t.columnas
  {
    EnRango(t, z) && Oculta(t, z) && Celda(t, z).numeroAdyacente == 0 && Celda(t2, z).estado == REVELADA
  }

  /** `c` is a path of opened zero cells that starts next to `o`, each cell
      next to the one before it. */
  ghost predicate Cadena(t: Tablero, t2: Tablero, o: Coordenada, c: seq<Coordenada>)
    requires Forma(t) && Forma(t2) && t2.filas == t.filas && t2.columnas == t.columnas
  {
    c != [] && Adyacentes(o, c[0]) &&
    (forall i :: 0 <= i < |c| ==> CeroAbierto(t, t2, c[i])) &&
    (forall i :: 0 <= i < |c| - 1 ==> Adyacentes(c[i], c[i + 1]))
  }

  /** `y` is next to the end of a path of opened zero cells starting next
      to `o`: the flood reaches it through cells with no mine around them. */
  ghost predicate Conectado(t: Tablero, t2: Tablero, o: Coordenada, y: Coordenada)
    requires Forma(t) && Forma(t2) && t2.filas == t.filas && t2.columnas == t.columnas
  {
    exists c :: Cadena(t, t2, o, c) && Adyacentes(c[|c| - 1], y)
  }

  /** Every cell that differs between `t` and `t2` is one of `vs` or is
      reached from `o` through opened zero cells. */
  ghost predicate Alcanzado(t: Tablero, t2: Tablero, o: Coordenada, vs: seq<Coordenada>)
    requires Forma(t) && Forma(t2) && t2.filas == t.filas && t2.columnas == t.columnas
  {
    forall y :: EnRango(t, y) && Celda(t2, y) != Celda(t, y) ==> y in vs || Conectado(t, t2, o, y)
  }

  /** A path opened between `t` and `a` is still one between `t` and `r`
      when `r` only reveals more cells of `a`. */
  lemma CadenaPersiste(t: Tablero, a: Tablero, r: Tablero, o: Coordenada, c: seq<Coordenada>)
    requires Forma(t) && Forma(a) && Forma(r) && Destapado(t, a) && Destapado(a, r)
    requires Cadena(t, a, o, c)
    ensures Cadena(t, r, o, c)
  {
    forall i | 0 <= i < |c| ensures CeroAbierto(t, r, c[i]) {
      assert CeroAbierto(t, a, c[i]);
    }
  }

  /** A path opened between `a` and `r` is one between `t` and `r` when
      every cell hidden and mine-free in `a` is as it was in `t`. */
  lemma CadenaAnterior(t: Tablero, a: Tablero, r: Tablero, o: Coordenada, c: seq<Coordenada>)
    requires Forma(t) && Forma(a) && Forma(r)
    requires a.filas == t.filas && a.columnas == t.columnas && r.filas == t.filas && r.columnas == t.columnas
    requires forall z :: EnRango(t, z) && Oculta(a, z) ==> Celda(a, z) == Celda(t, z)
    requires Cadena(a, r, o, c)
    ensures Cadena(t, r, o, c)
  {
    forall i | 0 <= i < |c| ensures CeroAbierto(t, r, c[i]) {
      assert CeroAbierto(a, r, c[i]);
    }
  }

  /** An opened zero cell `v` next to `o`, followed by a path starting next
      to `v`, is a path starting next to `o`. */
  lemma CadenaAnteponer(t: Tablero, r: Tablero, o: Coordenada, v: Coordenada, c: seq<Coordenada>)
    requires Forma(t) && Forma(r) && r.filas == t.filas && r.columnas == t.columnas
    requires CeroAbierto(t, r, v) && Adyacentes(o, v) && Cadena(t, r, v, c)
    ensures Cadena(t, r, o, [v] + c) && ([v] + c)[|[v] + c| - 1] == c[|c| - 1]
  {
    var d := [v] + c;
    forall i | 0 <= i < |d| ensures CeroAbierto(t, r, d[i]) {
      if i > 0 {
        assert d[i] == c[i - 1];
      }
    }
    forall i | 0 <= i < |d| - 1 ensures Adyacentes(d[i], d[i + 1]) {
      if i > 0 {
        assert d[i] == c[i - 1] && d[i + 1] == c[i];
      }
    }
  }

  /** Flood fill from `v`, a neighbour of `o`, changes only `v` and cells
      reached from `o` through the zero cells it opens: it spreads only
      through cells with no mine around them. */
  lemma {:induction false} CeldaAlcance(t: Tablero, o: Coordenada, v: Coordenada)
    requires Bien(t) && EnRango(t, v) && Adyacentes(o, v)
    ensures Alcanzado(t, PropagarCelda(t, v).0, o, [v])
    decreases Contar(t, DESCONOCIDA), 0, 0
  {
    if Oculta(t, v) {
      var t1 := ConEstado(t, v, REVELADA);
      ContarConEstado(t, v, REVELADA, DESCONOCIDA);
      if Celda(t1, v).numeroAdyacente == 0 {
        var vs := VecinosDe(t1, v);
        var r := PropagarCelda(t, v).0;
        PropagarAlcance(t1, v, vs);
        PropagarDestapa(t1, vs);
        assert Celda(r, v) == Celda(t1, v);
        assert CeroAbierto(t, r, v);
        forall z | EnRango(t, z) && Oculta(t1, z) ensures Celda(t1, z) == Celda(t, z) {
        }
        forall y | EnRango(t, y) && Celda(r, y) != Celda(t, y)
          ensures y in [v] || Conectado(t, r, o, y)
        {
          if y != v {
            assert Celda(t1, y) == Celda(t, y);
            AlcanceTrasCero(t, t1, r, o, v, y);
          }
        }
      }
    }
  }

  /** A cell next to an opened zero cell `v`, or reached from `v`, is
      reached from any `o` next to `v`. */
  lemma AlcanceTrasCero(t: Tablero, t1: Tablero, r: Tablero, o: Coordenada, v: Coordenada, y: Coordenada)
    requires Forma(t) && Forma(t1) && Forma(r)
    requires t1.filas == t.filas && t1.columnas == t.columnas && r.filas == t.filas && r.columnas == t.columnas
    requires CeroAbierto(t, r, v) && Adyacentes(o, v)
    requires forall z :: EnRango(t, z) && Oculta(t1, z) ==> Celda(t1, z) == Celda(t, z)
    requires Adyacentes(v, y) || Conectado(t1, r, v, y)
    ensures Conectado(t, r, o, y)
  {
    if Adyacentes(v, y) {
      assert Cadena(t, r, o, [v]);
    } else {
      var c :| Cadena(t1, r, v, c) && Adyacentes(c[|c| - 1], y);
      CadenaAnterior(t, t1, r, v, c);
      CadenaAnteponer(t, r, o, v, c);
    }
  }

  lemma {:induction false} PropagarAlcance(t: Tablero, o: Coordenada, vs: seq<Coordenada>)
    requires Bien(t) && TodosEnRango(t, vs) && forall v :: v in vs ==> Adyacentes(o, v)
    ensures Alcanzado(t, PropagarLista(t, vs).0, o, vs)
    decreases Contar(t, DESCONOCIDA), 1, |vs|
  {
    if vs != [] {
      var a := PropagarCelda(t, vs[0]).0;
      var r := PropagarLista(t, vs).0;
      CeldaAlcance(t, o, vs[0]);
      CeldaDestapa(t, vs[0]);
      PropagarAlcance(a, o, vs[1..]);
      PropagarDestapa(a, vs[1..]);
      AlcanceCompuesto(t, a, r, o, vs);
    }
  }

  /** Reaching the head of `vs` from `t` to `a`, then its tail from `a`
      to `r`, reaches `vs` from `t` to `r`. */
  lemma AlcanceCompuesto(t: Tablero, a: Tablero, r: Tablero, o: Coordenada, vs: seq<Coordenada>)
    requires Forma(t) && Forma(a) && Forma(r) && Destapado(t, a) && Destapado(a, r) && vs != []
    requires Alcanzado(t, a, o, [vs[0]]) && Alcanzado(a, r, o, vs[1..])
    ensures Alcanzado(t, r, o, vs)
  {
    forall y | EnRango(t, y) && Celda(r, y) != Celda(t, y)
      ensures y in vs || Conectado(t, r, o, y)
    {
      if Celda(a, y) != Celda(t, y) {
        if y != vs[0] {
          var c :| Cadena(t, a, o, c) && Adyacentes(c[|c| - 1], y);
          CadenaPersiste(t, a, r, o, c);
        }
      } else if y !in vs[1..] {
        var c :| Cadena(a, r, o, c) && Adyacentes(c[|c| - 1], y);
        forall z | EnRango(t, z) && Oculta(a, z) ensures Celda(a, z) == Celda(t, z) {
        }
        CadenaAnterior(t, a, r, o, c);
      }
    }
  }

  // ---------------------------------------------------------------------------
  // The controller's moves on a game value

  /** What the controller's moves act on: the board, the game state and the
      revealed and flagged counters. */
  datatype Partida = Partida(tablero: Tablero, estado: EstadoJuego, casillasReveladas: int, minasMarcadas: int)

  /** No revealed cell holds a mine. */
  ghost predicate SinMinaAbierta(t: Tablero)
    requires Forma(t)
  {
    forall y :: EnRango(t, y) && Celda(t, y).estado == REVELADA ==> !Celda(t, y).tieneMina
  }

  /** The revealed counter is exact and no mine was ever revealed. */
  ghost predicate Coherente(p: Partida) {
    Bien(p.tablero) && p.casillasReveladas == Contar(p.tablero, REVELADA) && SinMinaAbierta(p.tablero)
  }

  /** Reveals the cell at `x` and floods from it when no mine surrounds it;
      yields the board and the number of cells the flood opened. */
  function Abrir(t: Tablero, x: Coordenada): (r: (Tablero, nat))
    requires Bien(t) && EnRango(t, x)
    ensures Bien(r.0) && r.0.filas == t.filas && r.0.columnas == t.columnas && r.0.totalMinas == t.totalMinas
  {
    var t1 := ConEstado(t, x, REVELADA);
    if Celda(t, x).numeroAdyacente == 0 then PropagarLista(t1, VecinosDe(t1, x)) else (t1, 0)
  }

  /** Opening a cell that is not yet revealed reveals it (even a flagged
      one), changes no other cell but hidden mine-free ones, which it
      reveals, counts every cell it opens, and leaves no hidden mine-free cell
      next to an opened cell with no mine around it. */
  lemma AbrirCorrecto(t: Tablero, x: Coordenada)
    requires Bien(t) && EnRango(t, x) && Celda(t, x).estado != REVELADA
    ensures var (r, n) := Abrir(t, x);
      Celda(r, x) == Celda(t, x).(estado := REVELADA) &&
      (forall y :: EnRango(t, y) && y != x ==>
        Celda(r, y) == Celda(t, y) || (Oculta(t, y) && Celda(r, y) == Celda(t, y).(estado := REVELADA))) &&
      Contar(r, REVELADA) == Contar(t, REVELADA) + 1 + n &&
      (Celda(t, x).numeroAdyacente == 0 ==> Abierto(r, x)) &&
      Cerrado(t, r)
  {
    var t1 := ConEstado(t, x, REVELADA);
    ContarConEstado(t, x, REVELADA, REVELADA);
    var r := Abrir(t, x).0;
    if Celda(t, x).numeroAdyacente == 0 {
      var vs := VecinosDe(t1, x);
      PropagarDestapa(t1, vs);
      PropagarCuenta(t1, vs);
      PropagarCubre(t1, vs);
      PropagarCierra(t1, vs);
      assert VecinosDe(r, x) == vs;
      forall y | EnRango(t, y) && Oculta(t, y) && Celda(r, y).estado == REVELADA && Celda(t, y).numeroAdyacente == 0
        ensures Abierto(r, y)
      {
        if y != x {
          assert Oculta(t1, y);
        }
      }
    }
  }

  /** Opening `x` changes no other cell unless no mine surrounds `x`, and
      then only neighbours of `x` and cells next to the end of a path of
      hidden zero cells, each next to the one before it, that starts next
      to `x` and that the flood opens. With `PropagarCierra`, which leaves
      no hidden mine-free neighbour of an opened zero cell, the cells
      revealed are exactly the hidden zero region connected to `x` and its
      numbered border. */
  lemma AbrirAlcance(t: Tablero, x: Coordenada)
    requires Bien(t) && EnRango(t, x)
    ensures var r := Abrir(t, x).0;
      forall y :: EnRango(t, y) && y != x && Celda(r, y) != Celda(t, y) ==>
        Celda(t, x).numeroAdyacente == 0 && (Adyacentes(x, y) || Conectado(t, r, x, y))
  {
    var t1 := ConEstado(t, x, REVELADA);
    var r := Abrir(t, x).0;
    if Celda(t, x).numeroAdyacente == 0 {
      var vs := VecinosDe(t1, x);
      PropagarAlcance(t1, x, vs);
      forall y | EnRango(t, y) && y != x && Celda(r, y) != Celda(t, y)
        ensures Adyacentes(x, y) || Conectado(t, r, x, y)
      {
        assert Celda(t1, y) == Celda(t, y);
        if y !in vs {
          var c :| Cadena(t1, r, x, c) && Adyacentes(c[|c| - 1], y);
          CadenaAnterior(t, t1, r, x, c);
        }
      }
    }
  }

  /** The controller's reveal: nothing for a cell off the board or already
      revealed; a mine explodes and loses the game; anything else opens. */
  function RevelarEn(p: Partida, x: Coordenada): (r: (Partida, bool))
    requires Bien(p.tablero)
    ensures Bien(r.0.tablero) && r.0.tablero.filas == p.tablero.filas && r.0.tablero.columnas == p.tablero.columnas
    ensures r.0.tablero.totalMinas == p.tablero.totalMinas
  {
    var t := p.tablero;
    if !EnRango(t, x) || Celda(t, x).estado == REVELADA then (p, false)
    else if Celda(t, x).tieneMina then (p.(tablero := ConEstado(t, x, EXPLOSIONADA), estado := PERDIDO), false)
    else
      var a := Abrir(t, x);
      (p.(tablero := a.0, casillasReveladas := p.casillasReveladas + 1 + a.1), true)
  }

  /** A reveal keeps the game coherent; it succeeds exactly on an unrevealed
      mine-free cell of the board, loses the game exactly on an unrevealed
      mine, and leaves the flag counter alone. */
  lemma RevelarEnCorrecto(p: Partida, x: Coordenada)
    requires Coherente(p)
    ensures var (q, exito) := RevelarEn(p, x);
      Coherente(q) && q.minasMarcadas == p.minasMarcadas &&
      (exito <==> EnRango(p.tablero, x) && Celda(p.tablero, x).estado != REVELADA && !Celda(p.tablero, x).tieneMina) &&
      q.estado == (if EnRango(p.tablero, x) && Celda(p.tablero, x).estado != REVELADA && Celda(p.tablero, x).tieneMina
                   then PERDIDO else p.estado)
  {
    var t := p.tablero;
    if EnRango(t, x) && Celda(t, x).estado != REVELADA {
      if Celda(t, x).tieneMina {
        ContarConEstado(t, x, EXPLOSIONADA, REVELADA);
      } else {
        AbrirCorrecto(t, x);
      }
    }
  }

  /** The controller's flag: only a hidden cell of the board can be flagged. */
  function MarcarEn(p: Partida, x: Coordenada): (r: (Partida, bool))
    requires Bien(p.tablero)
    ensures Bien(r.0.tablero) && r.0.tablero.filas == p.tablero.filas && r.0.tablero.columnas == p.tablero.columnas
    ensures r.0.tablero.totalMinas == p.tablero.totalMinas
  {
    var t := p.tablero;
    if !EnRango(t, x) || Celda(t, x).estado != DESCONOCIDA then (p, false)
    else (p.(tablero := ConEstado(t, x, MARCADA), minasMarcadas := p.minasMarcadas + 1), true)
  }

  /** A flag keeps the game coherent, succeeds exactly on a hidden cell and
      then counts one more flag, and never changes the game state. */
  lemma MarcarEnCorrecto(p: Partida, x: Coordenada)
    requires Coherente(p)
    ensures var (q, exito) := MarcarEn(p, x);
      Coherente(q) && q.estado == p.estado &&
      (exito <==> EnRango(p.tablero, x) && Celda(p.tablero, x).estado == DESCONOCIDA) &&
      q.minasMarcadas == p.minasMarcadas + (if exito then 1 else 0)
  {
    var t := p.tablero;
    if EnRango(t, x) && Celda(t, x).estado == DESCONOCIDA {
      ContarConEstado(t, x, MARCADA, REVELADA);
    }
  }

  /** The win check: the game is won once at least as many cells are
      revealed as the board has cells without a mine, whatever its state. */
  function VerificarEn(p: Partida): Partida {
    var t := p.tablero;
    if p.casillasReveladas >= t.filas * t.columnas - t.totalMinas then p.(estado := GANADO) else p
  }

  /** Applies an inference's action to its cells in order; a reveal that
      loses the game stops the rest and reports failure, a failed flag is
      ignored. */
  function AplicarEn(p: Partida, accion: Option<AccionIA>, cs: seq<Coordenada>): (r: (Partida, bool))
    requires Bien(p.tablero)
    ensures Bien(r.0.tablero) && r.0.tablero.filas == p.tablero.filas && r.0.tablero.columnas == p.tablero.columnas
    ensures r.0.tablero.totalMinas == p.tablero.totalMinas
    decreases |cs|
  {
    if cs == [] then (p, true)
    else if accion == Some(REVELAR) then
      var (q, exito) := RevelarEn(p, cs[0]);
      if !exito && q.estado == PERDIDO then (q, false) else AplicarEn(q, accion, cs[1..])
    else if accion == Some(MARCAR_MINA) then
      AplicarEn(MarcarEn(p, cs[0]).0, accion, cs[1..])
    else
      AplicarEn(p, accion, cs[1..])
  }

  /** Applying a result keeps the game coherent and can only change its
      state to lost; from a game not yet lost it reports failure exactly when
      the game is lost, and otherwise leaves the game state as it was. */
  lemma {:induction false} AplicarEnCorrecto(p: Partida, accion: Option<AccionIA>, cs: seq<Coordenada>)
    requires Coherente(p)
    ensures var (q, exito) := AplicarEn(p, accion, cs);
      Coherente(q) && (q.estado == p.estado || q.estado == PERDIDO) &&
      (p.estado != PERDIDO ==> (exito <==> q.estado != PERDIDO) && (exito ==> q.estado == p.estado))
    decreases |cs|
  {
    if cs != [] {
      if accion == Some(REVELAR) {
        RevelarEnCorrecto(p, cs[0]);
        var q := RevelarEn(p, cs[0]).0;
        AplicarEnCorrecto(q, accion, cs[1..]);
      } else if accion == Some(MARCAR_MINA) {
        MarcarEnCorrecto(p, cs[0]);
        AplicarEnCorrecto(MarcarEn(p, cs[0]).0, accion, cs[1..]);
      } else {
        AplicarEnCorrecto(p, accion, cs[1..]);
      }
    }
  }

  /** The game after applying an action to one cell: a reveal, a flag, or
      nothing for any other action. */
  function TrasCasilla(p: Partida, accion: Option<AccionIA>, x: Coordenada): Partida
    requires Bien(p.tablero)
  {
    if accion == Some(REVELAR) then RevelarEn(p, x).0
    else if accion == Some(MARCAR_MINA) then MarcarEn(p, x).0
    else p
  }

  /** Whether applying an action to one cell is a failed reveal that lost
      the game. */
  function Perdida(p: Partida, accion: Option<AccionIA>, x: Coordenada): bool
    requires Bien(p.tablero)
  {
    accion == Some(REVELAR) && !RevelarEn(p, x).1 && RevelarEn(p, x).0.estado == PERDIDO
  }

  /** Applying a result to a non-empty list of cells is applying it to the
      first cell and then, unless that lost the game, to the rest. */
  lemma AplicarPaso(p: Partida, accion: Option<AccionIA>, cs: seq<Coordenada>)
    requires Bien(p.tablero) && cs != []
    ensures Perdida(p, accion, cs[0]) ==>
      AplicarEn(p, accion, cs).0 == TrasCasilla(p, accion, cs[0]) && !AplicarEn(p, accion, cs).1
    ensures !Perdida(p, accion, cs[0]) ==>
      AplicarEn(p, accion, cs).0 == AplicarEn(TrasCasilla(p, accion, cs[0]), accion, cs[1..]).0 &&
      AplicarEn(p, accion, cs).1 == AplicarEn(TrasCasilla(p, accion, cs[0]), accion, cs[1..]).1
  {
  }

  // ---------------------------------------------------------------------------
  // The opening move

  /** What the opening move looks for: a mine-free cell of the board, and in
      the first pass also one with no mine around it. */
  datatype Criterio = CERO_SEGURO | SIN_MINA

  predicate Cumple(t: Tablero, y: Coordenada, k: Criterio)
    requires Forma(t)
  {
    EnRango(t, y) && !Celda(t, y).tieneMina && (k == CERO_SEGURO ==> Celda(t, y).numeroAdyacente == 0)
  }

  /** The index of the first cell of `xs` meeting `k`, or `|xs|` when none
      does. */
  function PrimeraQue(t: Tablero, xs: seq<Coordenada>, k: Criterio): (i: nat)
    requires Forma(t)
    ensures i <= |xs|
    ensures i < |xs| ==> Cumple(t, xs[i], k)
    ensures forall j :: 0 <= j < i ==> !Cumple(t, xs[j], k)
    decreases |xs|
  {
    if xs == [] then 0
    else if Cumple(t, xs[0], k) then 0
    else 1 + PrimeraQue(t, xs[1..], k)
  }

  /** The four corners, in the order the opening move tries them. */
  function Esquinas(t: Tablero): seq<Coordenada> {
    [Coordenada(0, 0), Coordenada(0, t.columnas - 1), Coordenada(t.filas - 1, 0), Coordenada(t.filas - 1, t.columnas - 1)]
  }

  /** Whether the opening move finds a cell with no mine around it. */
  function HayCero(t: Tablero): bool
    requires Forma(t)
  {
    PrimeraQue(t, TodasCoordenadas(t), CERO_SEGURO) < |TodasCoordenadas(t)|
  }

  /** The cell the opening move reveals: the first cell in row-major order
      with no mine and no mine around it, else the first mine-free corner,
      else none. */
  function Apertura(t: Tablero): Option<Coordenada>
    requires Forma(t)
  {
    var todas := TodasCoordenadas(t);
    var i := PrimeraQue(t, todas, CERO_SEGURO);
    var j := PrimeraQue(t, Esquinas(t), SIN_MINA);
    if i < |todas| then Some(todas[i]) else if j < 4 then Some(Esquinas(t)[j]) else None
  }

  /** The opening move's cell is a mine-free cell of the board; when it is
      not a corner it has no mine around it and comes first in row-major
      order among such cells, and it is a corner only when no such cell
      exists; there is none only when no such cell exists and every corner is
      off the board or mined. */
  lemma AperturaCorrecta(t: Tablero)
    requires Forma(t)
    ensures Apertura(t).Some? ==> EnRango(t, Apertura(t).value) && !Celda(t, Apertura(t).value).tieneMina
    ensures HayCero(t) <==> exists y :: Cumple(t, y, CERO_SEGURO)
    ensures HayCero(t) ==>
      Apertura(t).Some? && Cumple(t, Apertura(t).value, CERO_SEGURO) &&
      forall y :: Cumple(t, y, CERO_SEGURO) ==> y == Apertura(t).value || Antes(Apertura(t).value, y)
    ensures !HayCero(t) ==> (Apertura(t).Some? <==> exists e :: e in Esquinas(t) && Cumple(t, e, SIN_MINA))
  {
    var todas := TodasCoordenadas(t);
    var i := PrimeraQue(t, todas, CERO_SEGURO);
    forall y | Cumple(t, y, CERO_SEGURO)
      ensures i < |todas| && (y == todas[i] || Antes(todas[i], y))
    {
      assert y in todas;
      var m :| 0 <= m < |todas| && todas[m] == y;
      if m != i {
        assert m > i;
      }
    }
    if i < |todas| {
      assert Cumple(t, todas[i], CERO_SEGURO);
    }
    var es := Esquinas(t);
    var j := PrimeraQue(t, es, SIN_MINA);
    if j == 4 {
      forall e | e in es ensures !Cumple(t, e, SIN_MINA) {
        var m :| 0 <= m < 4 && es[m] == e;
      }
    } else {
      assert es[j] in es;
    }
  }

  /** The game after the opening move: the cell `Apertura` picks revealed,
      or the game as it was when there is none. */
  function TrasApertura(p: Partida): Partida
    requires Bien(p.tablero)
  {
    match Apertura(p.tablero)
    case None => p
    case Some(x) => RevelarEn(p, x).0
  }

  /** The opening move keeps the game coherent and never loses it: the cell
      it reveals holds no mine. */
  lemma AperturaSegura(p: Partida)
    requires Coherente(p)
    ensures Coherente(TrasApertura(p)) && TrasApertura(p).estado == p.estado
    ensures TrasApertura(p).minasMarcadas == p.minasMarcadas
  {
    AperturaCorrecta(p.tablero);
    if Apertura(p.tablero).Some? {
      RevelarEnCorrecto(p, Apertura(p.tablero).value);
    }
  }

  /** What the opening move reports: a flood from a cell with no mine
      around it (certainty 1 and the revealed count afterwards), a corner
      guess (certainty 0.7 and one cell), or failure without a cell. */
  function RespuestaApertura(p: Partida): RespuestaPaso
    requires Bien(p.tablero)
  {
    if Apertura(p.tablero).None? then RespuestaPaso(false, SinInfo)
    else if HayCero(p.tablero) then RespuestaPaso(true, Info(PRIMER_MOVIMIENTO, 1.0, TrasApertura(p).casillasReveladas))
    else RespuestaPaso(true, Info(Inferido(HEURISTICA), 0.7, 1))
  }

  lemma {:induction false} FiltroVacio(t: Tablero, vs: seq<Coordenada>, e: EstadoCasilla)
    requires Forma(t) && TodosEnRango(t, vs) && forall y :: y in vs ==> Celda(t, y).estado != e
    ensures FiltrarEstado(t, vs, e) == []
    decreases |vs|
  {
    if vs != [] {
      assert vs[0] in vs;
      FiltroVacio(t, vs[1..], e);
    }
  }

  /** No revealed cell means a revealed count of zero. */
  lemma NingunaRevelada(t: Tablero)
    requires Forma(t) && forall y :: EnRango(t, y) ==> Celda(t, y).estado != REVELADA
    ensures Contar(t, REVELADA) == 0
  {
    FiltroVacio(t, TodasCoordenadas(t), REVELADA);
  }

  /** The opening move's scan: walks `xs` in order and stops at the first
      cell meeting `k`. */
  method BuscarPrimera(t: Tablero, xs: seq<Coordenada>, k: Criterio) returns (i: nat)
    requires Forma(t)
    ensures i == PrimeraQue(t, xs, k)
  {
    i := 0;
    while i < |xs| && !Cumple(t, xs[i], k)
      invariant 0 <= i <= |xs|
      invariant forall j :: 0 <= j < i ==> !Cumple(t, xs[j], k)
    {
      i := i + 1;
    }
  }

  /** The opening move's search: the cells with no mine around them in
      row-major order first, then the corners. */
  method BuscarApertura(t: Tablero) returns (apertura: Option<Coordenada>, cero: bool)
    requires Forma(t)
    ensures apertura == Apertura(t) && cero == HayCero(t)
  {
    var todas := TodasCoordenadas(t);
    var i := BuscarPrimera(t, todas, CERO_SEGURO);
    if i < |todas| {
      return Some(todas[i]), true;
    }
    var esquinas := Esquinas(t);
    var j := BuscarPrimera(t, esquinas, SIN_MINA);
    if j < |esquinas| {
      return Some(esquinas[j]), false;
    }
    return None, false;
  }

  /** A board as a game starts: every cell hidden, the mines at the first
      `MinasAColocar` cells of `orden`, every label right. */
  ghost predicate Inicial(t: Tablero, minas: int, orden: seq<Coordenada>)
    requires Bien(t)
  {
    (forall x :: EnRango(t, x) ==>
      Celda(t, x).estado == DESCONOCIDA && (Celda(t, x).tieneMina <==> x in orden[..MinasAColocar(minas, |orden|)])) &&
    Etiquetado(t)
  }

  /** The board a game starts on: created with its size, then mined. */
  method NuevoTablero(config: ConfiguracionJuego, orden: seq<Coordenada>) returns (g: GrafoTablero)
    requires |orden| == config.filas * config.columnas && Distintos(orden)
    requires forall y :: y in orden ==> Dentro(config.filas, config.columnas, y)
    ensures fresh(g) && g.Valid()
    ensures g.filas == config.filas && g.columnas == config.columnas && g.totalMinas == config.minas
    ensures Inicial(g.Vista(), config.minas, orden) && Coherente(Partida(g.Vista(), EN_CURSO, 0, 0))
  {
    g := new GrafoTablero(config.filas, config.columnas);
    g.ColocarMinas(config.minas, orden);
    NingunaRevelada(g.Vista());
  }

  // ---------------------------------------------------------------------------
  // The controller

  /** Where a step's move came from: the opening move or an inference kind. */
  datatype Origen = PRIMER_MOVIMIENTO | Inferido(tipo: TipoInferencia)

  /** What a step reports besides success: nothing, or the origin of the
      move, its certainty and the number of cells it affected. */
  datatype InfoPaso = SinInfo | Info(origen: Origen, certeza: real, nodosAfectados: int)

  datatype RespuestaPaso = RespuestaPaso(exito: bool, info: InfoPaso)

  class ControladorJuego {
    var grafo: GrafoTablero?
    var motor: MotorInferencia?
    var estado: EstadoJuego
    var primerMovimiento: bool
    var movimientosTotales: nat
    var casillasReveladas: int
    var minasMarcadas: int

    /** The game value the controller holds. */
    function Actual(): Partida
      reads this, grafo
      requires grafo != null
    {
      Partida(grafo.Vista(), estado, casillasReveladas, minasMarcadas)
    }

    /** Board and engine exist together, exactly once a game has started; the
        engine works on the controller's board, and the game is coherent. */
    ghost predicate Valid()
      reads this, grafo, motor, if motor != null then motor.reglas else []
    {
      (grafo == null <==> motor == null) && (grafo == null <==> estado == NO_INICIADO) &&
      (grafo != null ==> motor.grafo == grafo && motor.Valid() && Coherente(Actual()))
    }

    constructor ()
      ensures Valid() && grafo == null && estado == NO_INICIADO && primerMovimiento
      ensures movimientosTotales == 0 && casillasReveladas == 0 && minasMarcadas == 0
    {
      grafo := null;
      motor := null;
      estado := NO_INICIADO;
      primerMovimiento := true;
      movimientosTotales := 0;
      casillasReveladas := 0;
      minasMarcadas := 0;
    }

    /** Flood fill from the revealed cell `x` over its neighbours, counting
        every cell it reveals. */
    method PropagarRevelacion(x: Coordenada) returns (propagadas: nat)
      requires grafo != null && grafo.Valid() && EnRango(grafo.Vista(), x)
      modifies this, grafo
      ensures grafo == old(grafo) && motor == old(motor) && estado == old(estado)
      ensures primerMovimiento == old(primerMovimiento) && movimientosTotales == old(movimientosTotales)
      ensures minasMarcadas == old(minasMarcadas) && casillasReveladas == old(casillasReveladas) + propagadas
      ensures grafo.Valid() && grafo.probabilidades == old(grafo.probabilidades)
      ensures grafo.Vista() == PropagarLista(old(grafo.Vista()), VecinosDe(old(grafo.Vista()), x)).0
      ensures propagadas == PropagarLista(old(grafo.Vista()), VecinosDe(old(grafo.Vista()), x)).1
      decreases Contar(grafo.Vista(), DESCONOCIDA), 1
    {
      ghost var t0 := grafo.Vista();
      var vs := grafo.nodos[x.fila][x.columna].vecinos;
      assert vs == VecinosDe(t0, x);
      propagadas := 0;
      var i := 0;
      while i < |vs|
        invariant 0 <= i <= |vs|
        invariant grafo == old(grafo) && motor == old(motor) && estado == old(estado)
        invariant primerMovimiento == old(primerMovimiento) && movimientosTotales == old(movimientosTotales)
        invariant minasMarcadas == old(minasMarcadas) && casillasReveladas == old(casillasReveladas) + propagadas
        invariant grafo.Valid() && grafo.probabilidades == old(grafo.probabilidades)
        invariant Contar(grafo.Vista(), DESCONOCIDA) <= Contar(t0, DESCONOCIDA)
        invariant PropagarLista(t0, vs).0 == PropagarLista(grafo.Vista(), vs[i..]).0
        invariant PropagarLista(t0, vs).1 == propagadas + PropagarLista(grafo.Vista(), vs[i..]).1
      {
        ghost var t := grafo.Vista();
        PropagarPaso(t, vs[i..]);
        assert vs[i..][0] == vs[i] && vs[i..][1..] == vs[i + 1..];
        var k := RevelarVecino(vs[i]);
        propagadas := propagadas + k;
        i := i + 1;
      }
      assert vs[i..] == [];
    }

    /** One neighbour reached by flood fill: revealed, counted and flooded
        from in turn when it is hidden and mine-free. */
    method RevelarVecino(v: Coordenada) returns (k: nat)
      requires grafo != null && grafo.Valid() && EnRango(grafo.Vista(), v)
      modifies this, grafo
      ensures grafo == old(grafo) && motor == old(motor) && estado == old(estado)
      ensures primerMovimiento == old(primerMovimiento) && movimientosTotales == old(movimientosTotales)
      ensures minasMarcadas == old(minasMarcadas) && casillasReveladas == old(casillasReveladas) + k
      ensures grafo.Valid() && grafo.probabilidades == old(grafo.probabilidades)
      ensures grafo.Vista() == PropagarCelda(old(grafo.Vista()), v).0 && k == PropagarCelda(old(grafo.Vista()), v).1
      decreases Contar(grafo.Vista(), DESCONOCIDA), 0
    {
      ghost var t := grafo.Vista();
      var n := grafo.nodos[v.fila][v.columna];
      if n.estado == DESCONOCIDA && !n.tieneMina {
        grafo.nodos := grafo.nodos[v.fila := grafo.nodos[v.fila][v.columna := n.(estado := REVELADA)]];
        assert grafo.Vista() == ConEstado(t, v, REVELADA);
        ContarConEstado(t, v, REVELADA, DESCONOCIDA);
        casillasReveladas := casillasReveladas + 1;
        k := 1;
        if n.numeroAdyacente == 0 {
          var m := PropagarRevelacion(v);
          k := k + m;
        }
      } else {
        k := 0;
      }
    }

    /** The reveal of `RevelarEn` carried out on the board and the counters. */
    method RevelarEnGrafo(x: Coordenada) returns (exito: bool)
      requires grafo != null && grafo.Valid()
      modifies this, grafo
      ensures grafo == old(grafo) && motor == old(motor)
      ensures primerMovimiento == old(primerMovimiento) && movimientosTotales == old(movimientosTotales)
      ensures grafo.Valid() && grafo.probabilidades == old(grafo.probabilidades)
      ensures Actual() == RevelarEn(old(Actual()), x).0 && exito == RevelarEn(old(Actual()), x).1
    {
      ghost var t := grafo.Vista();
      var nodo := ObtenerNodo(grafo.Vista(), x.fila, x.columna);
      if nodo.None? {
        return false;
      }
      var n := nodo.value;
      if n.estado == REVELADA {
        return false;
      }
      if n.tieneMina {
        grafo.nodos := grafo.nodos[x.fila := grafo.nodos[x.fila][x.columna := n.(estado := EXPLOSIONADA)]];
        assert grafo.Vista() == ConEstado(t, x, EXPLOSIONADA);
        estado := PERDIDO;
        return false;
      }
      grafo.nodos := grafo.nodos[x.fila := grafo.nodos[x.fila][x.columna := n.(estado := REVELADA)]];
      assert grafo.Vista() == ConEstado(t, x, REVELADA);
      casillasReveladas := casillasReveladas + 1;
      if n.numeroAdyacente == 0 {
        var propagadas := PropagarRevelacion(x);
      }
      return true;
    }

    /** Reveals the cell at (`f`, `c`) as `RevelarEn` says, flooding from it
        when no mine surrounds it; without a game nothing happens. */
    method RevelarCasilla(f: int, c: int) returns (exito: bool)
      requires Valid()
      modifies this, grafo
      ensures Valid() && grafo == old(grafo) && motor == old(motor)
      ensures primerMovimiento == old(primerMovimiento) && movimientosTotales == old(movimientosTotales)
      ensures old(grafo) == null ==>
        !exito && estado == old(estado) && casillasReveladas == old(casillasReveladas) && minasMarcadas == old(minasMarcadas)
      ensures grafo != null ==> grafo.probabilidades == old(grafo.probabilidades)
      ensures old(grafo) != null ==>
        Actual() == RevelarEn(old(Actual()), Coordenada(f, c)).0 && exito == RevelarEn(old(Actual()), Coordenada(f, c)).1
    {
      if grafo == null {
        return false;
      }
      RevelarEnCorrecto(Actual(), Coordenada(f, c));
      exito := RevelarEnGrafo(Coordenada(f, c));
      MotorIntacto(motor);
    }

    /** The flag of `MarcarEn` carried out on the board and the counters. */
    method MarcarEnGrafo(x: Coordenada) returns (exito: bool)
      requires grafo != null && grafo.Valid()
      modifies this, grafo
      ensures grafo == old(grafo) && motor == old(motor)
      ensures primerMovimiento == old(primerMovimiento) && movimientosTotales == old(movimientosTotales)
      ensures grafo.Valid() && grafo.probabilidades == old(grafo.probabilidades)
      ensures Actual() == MarcarEn(old(Actual()), x).0 && exito == MarcarEn(old(Actual()), x).1
    {
      ghost var t := grafo.Vista();
      var nodo := ObtenerNodo(grafo.Vista(), x.fila, x.columna);
      if nodo.None? {
        return false;
      }
      var n := nodo.value;
      if n.estado != DESCONOCIDA {
        return false;
      }
      grafo.nodos := grafo.nodos[x.fila := grafo.nodos[x.fila][x.columna := n.(estado := MARCADA)]];
      assert grafo.Vista() == ConEstado(t, x, MARCADA);
      minasMarcadas := minasMarcadas + 1;
      return true;
    }

    /** Flags the cell at (`f`, `c`) as `MarcarEn` says; without a game
        nothing happens. */
    method MarcarMina(f: int, c: int) returns (exito: bool)
      requires Valid()
      modifies this, grafo
      ensures Valid() && grafo == old(grafo) && motor == old(motor)
      ensures primerMovimiento == old(primerMovimiento) && movimientosTotales == old(movimientosTotales)
      ensures old(grafo) == null ==>
        !exito && estado == old(estado) && minasMarcadas == old(minasMarcadas) && casillasReveladas == old(casillasReveladas)
      ensures grafo != null ==> grafo.probabilidades == old(grafo.probabilidades)
      ensures old(grafo) != null ==>
        Actual() == MarcarEn(old(Actual()), Coordenada(f, c)).0 && exito == MarcarEn(old(Actual()), Coordenada(f, c)).1
    {
      if grafo == null {
        return false;
      }
      MarcarEnCorrecto(Actual(), Coordenada(f, c));
      exito := MarcarEnGrafo(Coordenada(f, c));
      MotorIntacto(motor);
    }

    /** Declares the game won once enough cells are revealed. */
    method VerificarEstadoJuego()
      requires Valid()
      modifies this
      ensures Valid() && grafo == old(grafo) && motor == old(motor)
      ensures primerMovimiento == old(primerMovimiento) && movimientosTotales == old(movimientosTotales)
      ensures old(grafo) == null ==> estado == old(estado)
      ensures old(grafo) != null ==> Actual() == VerificarEn(old(Actual()))
    {
      if grafo == null {
        return;
      }
      var totalCasillas := grafo.filas * grafo.columnas;
      var casillasSinMina := totalCasillas - grafo.totalMinas;
      if casillasReveladas >= casillasSinMina {
        estado := GANADO;
      }
    }

    /** The player's reveal: refused unless the game is in progress; ends
        the opening phase and checks for a win. */
    method RevelarManual(f: int, c: int) returns (exito: bool)
      requires Valid()
      modifies this, grafo
      ensures Valid() && grafo == old(grafo) && motor == old(motor) && movimientosTotales == old(movimientosTotales)
      ensures old(estado) != EN_CURSO ==> !exito && estado == old(estado) && primerMovimiento == old(primerMovimiento)
      ensures old(estado) != EN_CURSO && grafo != null ==> Actual() == old(Actual())
      ensures old(estado) == EN_CURSO ==>
        grafo != null && !primerMovimiento &&
        Actual() == VerificarEn(RevelarEn(old(Actual()), Coordenada(f, c)).0) &&
        exito == RevelarEn(old(Actual()), Coordenada(f, c)).1
      ensures grafo != null ==> grafo.probabilidades == old(grafo.probabilidades)
    {
      if estado != EN_CURSO {
        return false;
      }
      primerMovimiento := false;
      exito := RevelarCasilla(f, c);
      VerificarEstadoJuego();
    }

    /** The player's flag: refused unless the game is in progress. */
    method MarcarManual(f: int, c: int) returns (exito: bool)
      requires Valid()
      modifies this, grafo
      ensures Valid() && grafo == old(grafo) && motor == old(motor)
      ensures primerMovimiento == old(primerMovimiento) && movimientosTotales == old(movimientosTotales)
      ensures old(estado) != EN_CURSO ==> !exito && estado == old(estado)
      ensures old(estado) != EN_CURSO && grafo != null ==> Actual() == old(Actual())
      ensures old(estado) == EN_CURSO ==>
        grafo != null &&
        Actual() == MarcarEn(old(Actual()), Coordenada(f, c)).0 && exito == MarcarEn(old(Actual()), Coordenada(f, c)).1
      ensures grafo != null ==> grafo.probabilidades == old(grafo.probabilidades)
    {
      if estado != EN_CURSO {
        return false;
      }
      exito := MarcarMina(f, c);
    }

    /** Starts a game on a fresh board of the configured size with the
        configured number of mines, placed at the first cells of `orden`,
        and a fresh engine over it. */
    method IniciarJuego(config: ConfiguracionJuego, orden: seq<Coordenada>)
      requires |orden| == config.filas * config.columnas && Distintos(orden)
      requires forall y :: y in orden ==> Dentro(config.filas, config.columnas, y)
      modifies this
      ensures Valid() && grafo != null && fresh(grafo) && fresh(motor)
      ensures estado == EN_CURSO && primerMovimiento && movimientosTotales == 0
      ensures casillasReveladas == 0 && minasMarcadas == 0
      ensures grafo.filas == config.filas && grafo.columnas == config.columnas && grafo.totalMinas == config.minas
      ensures Inicial(grafo.Vista(), config.minas, orden)
    {
      estado := EN_CURSO;
      primerMovimiento := true;
      movimientosTotales := 0;
      casillasReveladas := 0;
      minasMarcadas := 0;
      var g := NuevoTablero(config, orden);
      ghost var t := g.Vista();
      var m := new MotorInferencia(g);
      label Creado:
      grafo, motor := g, m;
      assert grafo.Vista() == t;
      MotorIntacto@Creado(m);
      assert motor.Valid();
      assert Coherente(Actual());
      assert motor.grafo == grafo;
    }

    /** The opening move carried out on the board and the counters. */
    method AperturaEnGrafo() returns (r: RespuestaPaso)
      requires grafo != null && grafo.Valid()
      modifies this, grafo
      ensures grafo == old(grafo) && motor == old(motor) && movimientosTotales == old(movimientosTotales)
      ensures grafo.Valid() && grafo.probabilidades == old(grafo.probabilidades)
      ensures Actual() == TrasApertura(old(Actual())) && r == RespuestaApertura(old(Actual()))
      ensures primerMovimiento == (old(primerMovimiento) && Apertura(old(grafo.Vista())).None?)
    {
      var apertura, cero := BuscarApertura(grafo.Vista());
      if apertura.None? {
        return RespuestaPaso(false, SinInfo);
      }
      var ok := RevelarEnGrafo(apertura.value);
      primerMovimiento := false;
      if cero {
        r := RespuestaPaso(true, Info(PRIMER_MOVIMIENTO, 1.0, casillasReveladas));
      } else {
        r := RespuestaPaso(true, Info(Inferido(HEURISTICA), 0.7, 1));
      }
    }

    /** The opening move, as `TrasApertura` and `RespuestaApertura` say; it ends the opening
        phase once it has a cell to reveal. */
    method PrimerMovimientoSeguro() returns (r: RespuestaPaso)
      requires Valid() && grafo != null
      modifies this, grafo
      ensures Valid() && grafo == old(grafo) && motor == old(motor) && movimientosTotales == old(movimientosTotales)
      ensures Actual() == TrasApertura(old(Actual())) && r == RespuestaApertura(old(Actual()))
      ensures primerMovimiento == (old(primerMovimiento) && Apertura(old(grafo.Vista())).None?)
      ensures grafo.probabilidades == old(grafo.probabilidades)
    {
      AperturaSegura(Actual());
      r := AperturaEnGrafo();
      MotorIntacto(motor);
    }

    /** One cell of an inference: revealed or flagged as the action says;
        `perdida` tells whether a failed reveal lost the game. */
    method AplicarCasilla(accion: Option<AccionIA>, x: Coordenada) returns (perdida: bool)
      requires grafo != null && grafo.Valid()
      modifies this, grafo
      ensures grafo == old(grafo) && motor == old(motor)
      ensures primerMovimiento == old(primerMovimiento) && movimientosTotales == old(movimientosTotales)
      ensures grafo.Valid() && grafo.probabilidades == old(grafo.probabilidades)
      ensures Actual() == TrasCasilla(old(Actual()), accion, x) && perdida == Perdida(old(Actual()), accion, x)
    {
      perdida := false;
      if accion == Some(REVELAR) {
        var ok := RevelarEnGrafo(x);
        perdida := !ok && estado == PERDIDO;
      } else if accion == Some(MARCAR_MINA) {
        var ok := MarcarEnGrafo(x);
      }
    }

    /** The cells of an inference, one by one, as `AplicarEn` says: a
        losing reveal stops the rest with failure. */
    method AplicarCasillas(accion: Option<AccionIA>, cs: seq<Coordenada>) returns (exito: bool)
      requires grafo != null && grafo.Valid()
      modifies this, grafo
      ensures grafo == old(grafo) && motor == old(motor)
      ensures primerMovimiento == old(primerMovimiento) && movimientosTotales == old(movimientosTotales)
      ensures grafo.Valid() && grafo.probabilidades == old(grafo.probabilidades)
      ensures Actual() == AplicarEn(old(Actual()), accion, cs).0 && exito == AplicarEn(old(Actual()), accion, cs).1
    {
      ghost var p0 := Actual();
      var i := 0;
      while i < |cs|
        invariant 0 <= i <= |cs|
        invariant grafo == old(grafo) && motor == old(motor)
        invariant primerMovimiento == old(primerMovimiento) && movimientosTotales == old(movimientosTotales)
        invariant grafo.Valid() && grafo.probabilidades == old(grafo.probabilidades)
        invariant AplicarEn(p0, accion, cs).0 == AplicarEn(Actual(), accion, cs[i..]).0
        invariant AplicarEn(p0, accion, cs).1 == AplicarEn(Actual(), accion, cs[i..]).1
      {
        AplicarPaso(Actual(), accion, cs[i..]);
        assert cs[i..][0] == cs[i] && cs[i..][1..] == cs[i + 1..];
        var perdida := AplicarCasilla(accion, cs[i]);
        if perdida {
          return false;
        }
        i := i + 1;
      }
      assert cs[i..] == [];
      return true;
    }

    /** Carries out an inference on the board as `AplicarEn` says. */
    method AplicarResultado(res: ResultadoInferencia) returns (exito: bool)
      requires Valid() && grafo != null
      modifies this, grafo
      ensures Valid() && grafo == old(grafo) && motor == old(motor)
      ensures primerMovimiento == old(primerMovimiento) && movimientosTotales == old(movimientosTotales)
      ensures Actual() == AplicarEn(old(Actual()), res.accion, res.coordenadas).0
      ensures exito == AplicarEn(old(Actual()), res.accion, res.coordenadas).1
      ensures grafo.probabilidades == old(grafo.probabilidades)
    {
      AplicarEnCorrecto(Actual(), res.accion, res.coordenadas);
      exito := AplicarCasillas(res.accion, res.coordenadas);
      MotorIntacto(motor);
    }

    /** One step of the solver: nothing without a game in progress; the
        opening move while the opening phase lasts; otherwise one inference
        cycle of the engine, carried out on the board and counted, followed
        by the win check. */
    method EjecutarPasoIA() returns (r: Option<RespuestaPaso>)
      requires Valid()
      modifies this, grafo, motor
      modifies if motor != null then {motor.redBayesiana} else {}, if motor != null then motor.reglas else []
      ensures Valid() && grafo == old(grafo) && motor == old(motor)
      ensures old(grafo) == null || old(estado) != EN_CURSO ==>
        r.None? && estado == old(estado) && primerMovimiento == old(primerMovimiento) &&
        movimientosTotales == old(movimientosTotales)
      ensures old(grafo) != null && old(estado) != EN_CURSO ==> Actual() == old(Actual())
      ensures old(grafo) != null && old(estado) == EN_CURSO && old(primerMovimiento) ==>
        Actual() == TrasApertura(old(Actual())) && r == Some(RespuestaApertura(old(Actual()))) &&
        movimientosTotales == old(movimientosTotales)
      ensures old(grafo) != null && old(estado) == EN_CURSO && !old(primerMovimiento) ==>
        var res := Ciclo(old(grafo.Vista()), old(motor.redBayesiana.cache), Creadas);
        r.Some? && !primerMovimiento &&
        (res.None? || !res.value.exito ==>
          Actual() == old(Actual()) && movimientosTotales == old(movimientosTotales) &&
          r.value == RespuestaPaso(false, SinInfo)) &&
        (res.Some? && res.value.exito ==>
          var aplicado := AplicarEn(old(Actual()), res.value.accion, res.value.coordenadas);
          Actual() == VerificarEn(aplicado.0) && movimientosTotales == old(movimientosTotales) + 1 &&
          r.value == RespuestaPaso(aplicado.1, Info(Inferido(res.value.tipo), res.value.certeza, |res.value.coordenadas|)))
      ensures old(grafo) != null && (old(estado) != EN_CURSO || old(primerMovimiento)) ==>
        motor.historialInferencias == old(motor.historialInferencias) &&
        motor.redBayesiana.cache == old(motor.redBayesiana.cache) && grafo.probabilidades == old(grafo.probabilidades)
      ensures old(grafo) != null && old(estado) == EN_CURSO && !old(primerMovimiento) ==>
        var res := Ciclo(old(grafo.Vista()), old(motor.redBayesiana.cache), Creadas);
        var e := RecorridoTotal(old(grafo.Vista()), old(motor.redBayesiana.cache), old(grafo.probabilidades));
        motor.historialInferencias == old(motor.historialInferencias) + (if res.Some? then [res.value] else []) &&
        motor.redBayesiana.cache == (if res.Some? then map[] else e.cache) &&
        grafo.probabilidades == if FasesReglas(old(grafo.Vista()), Creadas).Some? then old(grafo.probabilidades) else e.probs
    {
      if grafo == null || motor == null || estado != EN_CURSO {
        return None;
      }
      if primerMovimiento {
        ghost var h, c := motor.historialInferencias, motor.redBayesiana.cache;
        var respuesta := PrimerMovimientoSeguro();
        assert motor.historialInferencias == h && motor.redBayesiana.cache == c;
        return Some(respuesta);
      }
      var respuesta := PasoInferido();
      return Some(respuesta);
    }

    /** A step of the solver after the opening move: the engine's cycle;
        when it yields a successful inference, the inference is carried out
        on the board, the move counted and the win checked. */
    method PasoInferido() returns (r: RespuestaPaso)
      requires Valid() && grafo != null
      modifies this, grafo, motor, motor.redBayesiana, motor.reglas
      ensures Valid() && grafo == old(grafo) && motor == old(motor) && primerMovimiento == old(primerMovimiento)
      ensures var res := Ciclo(old(grafo.Vista()), old(motor.redBayesiana.cache), Creadas);
        res.None? || !res.value.exito ==>
          Actual() == old(Actual()) && movimientosTotales == old(movimientosTotales) && r == RespuestaPaso(false, SinInfo)
      ensures var res := Ciclo(old(grafo.Vista()), old(motor.redBayesiana.cache), Creadas);
        res.Some? && res.value.exito ==>
          var aplicado := AplicarEn(old(Actual()), res.value.accion, res.value.coordenadas);
          Actual() == VerificarEn(aplicado.0) && movimientosTotales == old(movimientosTotales) + 1 &&
          r == RespuestaPaso(aplicado.1, Info(Inferido(res.value.tipo), res.value.certeza, |res.value.coordenadas|))
      ensures var res := Ciclo(old(grafo.Vista()), old(motor.redBayesiana.cache), Creadas);
        motor.historialInferencias == old(motor.historialInferencias) + (if res.Some? then [res.value] else [])
      ensures var e := RecorridoTotal(old(grafo.Vista()), old(motor.redBayesiana.cache), old(grafo.probabilidades));
        motor.redBayesiana.cache == (if Ciclo(old(grafo.Vista()), old(motor.redBayesiana.cache), Creadas).Some? then map[] else e.cache) &&
        grafo.probabilidades == if FasesReglas(old(grafo.Vista()), Creadas).Some? then old(grafo.probabilidades) else e.probs
    {
      var resultado := motor.EjecutarCicloCompleto();
      if resultado.None? || !resultado.value.exito {
        return RespuestaPaso(false, SinInfo);
      }
      var exito := AplicarResultado(resultado.value);
      label Aplicado:
      movimientosTotales := movimientosTotales + 1;
      MotorIntacto@Aplicado(motor);
      VerificarEstadoJuego();
      var res := resultado.value;
      r := RespuestaPaso(exito, Info(Inferido(res.tipo), res.certeza, |res.coordenadas|));
    }
  }
}
