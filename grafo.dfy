/** The board graph: a rows x columns grid of nodes, each wired to its
    in-range Moore neighbours, with mine placement and numeric labels.
    A node is identified by its coordinate; its neighbour list holds the
    coordinates of its neighbours in the order the board builder visits them. */
module Grafo {
  import opened Tipos

  datatype Nodo = Nodo(
    fila: int,
    columna: int,
    estado: EstadoCasilla,
    tieneMina: bool,
    numeroAdyacente: int,
    vecinos: seq<Coordenada>)

  /** A board as a value: the grid of nodes plus the number of mines placed. */
  datatype Tablero = Tablero(filas: nat, columnas: nat, nodos: seq<seq<Nodo>>, totalMinas: int)

  predicate Dentro(filas: int, columnas: int, x: Coordenada) {
    0 <= x.fila < filas && 0 <= x.columna < columnas
  }

  predicate EnRango(t: Tablero, x: Coordenada) {
    Dentro(t.filas, t.columnas, x)
  }

  predicate Forma(t: Tablero) {
    |t.nodos| == t.filas && forall f :: 0 <= f < t.filas ==> |t.nodos[f]| == t.columnas
  }

  function Celda(t: Tablero, x: Coordenada): Nodo
    requires Forma(t) && EnRango(t, x)
  {
    t.nodos[x.fila][x.columna]
  }

  /** `t` with the node at `x` replaced by `n`. */
  function ConNodo(t: Tablero, x: Coordenada, n: Nodo): (r: Tablero)
    requires Forma(t) && EnRango(t, x)
    ensures Forma(r) && r.filas == t.filas && r.columnas == t.columnas && r.totalMinas == t.totalMinas
    ensures forall y :: EnRango(t, y) ==> Celda(r, y) == if y == x then n else Celda(t, y)
  {
    t.(nodos := t.nodos[x.fila := t.nodos[x.fila][x.columna := n]])
  }

  // ---------------------------------------------------------------------------
  // Neighbourhood

  /** Chebyshev distance exactly 1. */
  predicate Adyacentes(x: Coordenada, y: Coordenada) {
    x != y && -1 <= y.fila - x.fila <= 1 && -1 <= y.columna - x.columna <= 1
  }

  /** The k-th offset visited by the builder's two nested loops: the row
      offset runs from -1 to 1 and, inside it, the column offset from -1 to 1. */
  function Candidato(x: Coordenada, k: int): Coordenada {
    Coordenada(x.fila + k / 3 - 1, x.columna + k % 3 - 1)
  }

  /** The neighbour list after the first k of the nine offsets; offset 4 is the node itself. */
  function VecinosHasta(filas: int, columnas: int, x: Coordenada, k: nat): seq<Coordenada>
    requires k <= 9
  {
    if k == 0 then []
    else
      var y := Candidato(x, k - 1);
      VecinosHasta(filas, columnas, x, k - 1) + (if k - 1 != 4 && Dentro(filas, columnas, y) then [y] else [])
  }

  /** The builder's step for the row offset `df` and column offset `dc`,
      which is offset number `k`. */
  lemma VecinosHastaPaso(filas: int, columnas: int, x: Coordenada, df: int, dc: int, k: nat)
    requires -1 <= df <= 1 && -1 <= dc <= 1 && k == (df + 1) * 3 + dc + 1
    ensures var nf := x.fila + df; var nc := x.columna + dc;
      VecinosHasta(filas, columnas, x, k + 1) ==
        VecinosHasta(filas, columnas, x, k) +
          if !(df == 0 && dc == 0) && nf >= 0 && nf < filas && nc >= 0 && nc < columnas
          then [Coordenada(nf, nc)] else []
  {
    assert Candidato(x, k) == Coordenada(x.fila + df, x.columna + dc);
  }

  function Vecinos(filas: int, columnas: int, x: Coordenada): seq<Coordenada> {
    VecinosHasta(filas, columnas, x, 9)
  }

  /** Row-major order. */
  predicate Antes(a: Coordenada, b: Coordenada) {
    a.fila < b.fila || (a.fila == b.fila && a.columna < b.columna)
  }

  predicate FilaMayor(s: seq<Coordenada>) {
    forall i, j :: 0 <= i < j < |s| ==> Antes(s[i], s[j])
  }

  predicate Distintos(s: seq<Coordenada>) {
    forall i, j :: 0 <= i < j < |s| ==> s[i] != s[j]
  }

  lemma CandidatoAdyacente(x: Coordenada, j: int)
    requires 0 <= j < 9 && j != 4
    ensures Adyacentes(x, Candidato(x, j))
  {
  }

  lemma CandidatosCrecen(x: Coordenada, i: int, j: int)
    requires 0 <= i < j < 9
    ensures Antes(Candidato(x, i), Candidato(x, j))
  {
  }

  lemma {:induction false} VecinosHastaExactos(filas: int, columnas: int, x: Coordenada, k: nat, y: Coordenada)
    requires k <= 9
    ensures y in VecinosHasta(filas, columnas, x, k) <==>
            exists j :: 0 <= j < k && j != 4 && Dentro(filas, columnas, Candidato(x, j)) && y == Candidato(x, j)
  {
    if k > 0 {
      VecinosHastaExactos(filas, columnas, x, k - 1, y);
    }
  }

  lemma {:induction false} VecinosHastaOrdenados(filas: int, columnas: int, x: Coordenada, k: nat)
    requires k <= 9
    ensures FilaMayor(VecinosHasta(filas, columnas, x, k))
    ensures |VecinosHasta(filas, columnas, x, k)| <= if k > 4 then k - 1 else k
  {
    if k > 0 {
      VecinosHastaOrdenados(filas, columnas, x, k - 1);
      var prev := VecinosHasta(filas, columnas, x, k - 1);
      var y := Candidato(x, k - 1);
      forall i | 0 <= i < |prev|
        ensures Antes(prev[i], y)
      {
        VecinosHastaExactos(filas, columnas, x, k - 1, prev[i]);
        var j :| 0 <= j < k - 1 && j != 4 && Dentro(filas, columnas, Candidato(x, j)) && prev[i] == Candidato(x, j);
        CandidatosCrecen(x, j, k - 1);
      }
    }
  }

  /** The neighbours of `x` are exactly the in-range cells at Chebyshev
      distance 1 from it. */
  lemma VecinosExactos(filas: int, columnas: int, x: Coordenada, y: Coordenada)
    ensures y in Vecinos(filas, columnas, x) <==> Dentro(filas, columnas, y) && Adyacentes(x, y)
  {
    VecinosHastaExactos(filas, columnas, x, 9, y);
    if y in Vecinos(filas, columnas, x) {
      var j :| 0 <= j < 9 && j != 4 && Dentro(filas, columnas, Candidato(x, j)) && y == Candidato(x, j);
      CandidatoAdyacente(x, j);
    }
    if Dentro(filas, columnas, y) && Adyacentes(x, y) {
      var j := (y.fila - x.fila + 1) * 3 + (y.columna - x.columna + 1);
      assert Candidato(x, j) == y;
    }
  }

  /** Neighbour lists are in row-major order (which is the builder's
      row-offset-then-column-offset order), hence without repeats, and hold
      at most 8 cells. */
  lemma VecinosOrdenados(filas: int, columnas: int, x: Coordenada)
    ensures FilaMayor(Vecinos(filas, columnas, x))
    ensures Distintos(Vecinos(filas, columnas, x))
    ensures |Vecinos(filas, columnas, x)| <= 8
  {
    VecinosHastaOrdenados(filas, columnas, x, 9);
  }

  /** Adjacency is symmetric. */
  lemma VecinosSimetricos(filas: int, columnas: int, x: Coordenada, y: Coordenada)
    requires Dentro(filas, columnas, x)
    ensures y in Vecinos(filas, columnas, x) <==> Dentro(filas, columnas, y) && x in Vecinos(filas, columnas, y)
  {
    VecinosExactos(filas, columnas, x, y);
    VecinosExactos(filas, columnas, y, x);
  }

  // ---------------------------------------------------------------------------
  // Well-formed boards

  /** `vs` lists exactly the in-range cells adjacent to `x`, in row-major
      order: what the builder wires into each node. */
  ghost predicate ListaVecinos(filas: int, columnas: int, x: Coordenada, vs: seq<Coordenada>) {
    (forall y :: y in vs <==> Dentro(filas, columnas, y) && Adyacentes(x, y)) &&
    FilaMayor(vs) && Distintos(vs) && |vs| <= 8
  }

  lemma VecinosListados(filas: int, columnas: int, x: Coordenada)
    ensures ListaVecinos(filas, columnas, x, Vecinos(filas, columnas, x))
  {
    VecinosOrdenados(filas, columnas, x);
    forall y ensures y in Vecinos(filas, columnas, x) <==> Dentro(filas, columnas, y) && Adyacentes(x, y) {
      VecinosExactos(filas, columnas, x, y);
    }
  }

  /** Every node sits at its own coordinate and lists its neighbours. */
  ghost predicate Bien(t: Tablero) {
    Forma(t) &&
    forall x :: EnRango(t, x) ==>
      Celda(t, x).fila == x.fila && Celda(t, x).columna == x.columna &&
      ListaVecinos(t.filas, t.columnas, x, Celda(t, x).vecinos)
  }

  predicate TodosEnRango(t: Tablero, vs: seq<Coordenada>) {
    forall v :: v in vs ==> EnRango(t, v)
  }

  /** The neighbour list of a node of a well-formed board. */
  function VecinosDe(t: Tablero, x: Coordenada): (r: seq<Coordenada>)
    requires Bien(t) && EnRango(t, x)
    ensures forall y :: y in r <==> EnRango(t, y) && Adyacentes(x, y)
    ensures FilaMayor(r) && Distintos(r) && |r| <= 8
    ensures TodosEnRango(t, r)
  {
    VecinosBien(t, x);
    Celda(t, x).vecinos
  }

  lemma VecinosBien(t: Tablero, x: Coordenada)
    requires Bien(t) && EnRango(t, x)
    ensures forall y :: y in Celda(t, x).vecinos <==> EnRango(t, y) && Adyacentes(x, y)
    ensures FilaMayor(Celda(t, x).vecinos) && Distintos(Celda(t, x).vecinos) && |Celda(t, x).vecinos| <= 8
  {
  }

  /** Keeping the structure while changing one node's state, flag or label keeps the board well-formed. */
  lemma BienConNodo(t: Tablero, x: Coordenada, n: Nodo)
    requires Bien(t) && EnRango(t, x)
    requires n.fila == x.fila && n.columna == x.columna && n.vecinos == Celda(t, x).vecinos
    ensures Bien(ConNodo(t, x, n))
  {
  }

  // ---------------------------------------------------------------------------
  // Neighbour queries

  /** The members of `vs` in state `e`, in the order of `vs`. */
  function FiltrarEstado(t: Tablero, vs: seq<Coordenada>, e: EstadoCasilla): (r: seq<Coordenada>)
    requires Forma(t) && TodosEnRango(t, vs)
    ensures forall y :: y in r <==> y in vs && Celda(t, y).estado == e
    ensures |r| <= |vs| && TodosEnRango(t, r)
    ensures FilaMayor(vs) ==> FilaMayor(r)
  {
    if vs == [] then []
    else
      var resto := FiltrarEstado(t, vs[1..], e);
      assert FilaMayor(vs) ==> FilaMayor(vs[1..]) && forall y :: y in resto ==> Antes(vs[0], y);
      (if Celda(t, vs[0]).estado == e then [vs[0]] else []) + resto
  }

  lemma Asociativa<T>(a: seq<T>, b: seq<T>, c: seq<T>)
    ensures a + (b + c) == (a + b) + c
  {
  }

  /** Filtering a list extended by one cell extends the filtered list by that
      cell when it is in state `e`. */
  lemma {:induction false} FiltrarEstadoAgregar(t: Tablero, vs: seq<Coordenada>, x: Coordenada, e: EstadoCasilla)
    requires Forma(t) && TodosEnRango(t, vs) && EnRango(t, x)
    ensures FiltrarEstado(t, vs + [x], e) == FiltrarEstado(t, vs, e) + (if Celda(t, x).estado == e then [x] else [])
  {
    var fin := if Celda(t, x).estado == e then [x] else [];
    if vs == [] {
      assert FiltrarEstado(t, [x], e) == fin + FiltrarEstado(t, [], e);
    } else {
      var ws := vs + [x];
      assert ws[0] == vs[0] && ws[1..] == vs[1..] + [x];
      var cabeza := if Celda(t, vs[0]).estado == e then [vs[0]] else [];
      FiltrarEstadoAgregar(t, vs[1..], x, e);
      assert FiltrarEstado(t, ws, e) == cabeza + (FiltrarEstado(t, vs[1..], e) + fin);
      assert FiltrarEstado(t, vs, e) == cabeza + FiltrarEstado(t, vs[1..], e);
      Asociativa(cabeza, FiltrarEstado(t, vs[1..], e), fin);
    }
  }

  /** The members of `vs` that hold a mine, in the order of `vs`. */
  function FiltrarMina(t: Tablero, vs: seq<Coordenada>): (r: seq<Coordenada>)
    requires Forma(t) && TodosEnRango(t, vs)
    ensures forall y :: y in r <==> y in vs && Celda(t, y).tieneMina
    ensures |r| <= |vs|
  {
    if vs == [] then []
    else (if Celda(t, vs[0]).tieneMina then [vs[0]] else []) + FiltrarMina(t, vs[1..])
  }

  function VecinosPorEstado(t: Tablero, x: Coordenada, e: EstadoCasilla): (r: seq<Coordenada>)
    requires Bien(t) && EnRango(t, x)
    ensures forall y :: y in r <==> EnRango(t, y) && Adyacentes(x, y) && Celda(t, y).estado == e
    ensures FilaMayor(r) && TodosEnRango(t, r) && |r| <= 8
  {
    FiltrarEstado(t, VecinosDe(t, x), e)
  }

  function ContarVecinosPorEstado(t: Tablero, x: Coordenada, e: EstadoCasilla): nat
    requires Bien(t) && EnRango(t, x)
  {
    |VecinosPorEstado(t, x, e)|
  }

  /** Label minus flagged neighbours. */
  function MinasRestantes(t: Tablero, x: Coordenada): int
    requires Bien(t) && EnRango(t, x)
  {
    Celda(t, x).numeroAdyacente - ContarVecinosPorEstado(t, x, MARCADA)
  }

  /** Number of hidden neighbours. */
  function EspaciosLibres(t: Tablero, x: Coordenada): nat
    requires Bien(t) && EnRango(t, x)
  {
    ContarVecinosPorEstado(t, x, DESCONOCIDA)
  }

  /** The number of neighbours of `x` that hold a mine. */
  function MinasVecinas(t: Tablero, x: Coordenada): nat
    requires Bien(t) && EnRango(t, x)
  {
    |FiltrarMina(t, VecinosDe(t, x))|
  }

  /** Every non-mine node is labelled with its number of mine neighbours. */
  ghost predicate Etiquetado(t: Tablero)
    requires Bien(t)
  {
    forall x :: EnRango(t, x) && !Celda(t, x).tieneMina ==> Celda(t, x).numeroAdyacente == MinasVecinas(t, x)
  }

  /** Node lookup: nothing for out-of-range coordinates, else the node at (f, c). */
  function ObtenerNodo(t: Tablero, f: int, c: int): (r: Option<Nodo>)
    requires Bien(t)
    ensures r.None? <==> !EnRango(t, Coordenada(f, c))
    ensures r.Some? ==> r.value.fila == f && r.value.columna == c && r.value == Celda(t, Coordenada(f, c))
  {
    if f >= 0 && f < t.filas && c >= 0 && c < t.columnas then Some(t.nodos[f][c]) else None
  }

  // ---------------------------------------------------------------------------
  // All nodes in row-major order

  function FilaCoordenadas(f: int, columnas: nat): seq<Coordenada> {
    seq(columnas, c => Coordenada(f, c))
  }

  function CoordenadasHasta(k: nat, columnas: nat): seq<Coordenada> {
    if k == 0 then [] else CoordenadasHasta(k - 1, columnas) + FilaCoordenadas(k - 1, columnas)
  }

  lemma {:induction false} CoordenadasHastaLongitud(k: nat, columnas: nat)
    ensures |CoordenadasHasta(k, columnas)| == k * columnas
  {
    if k > 0 {
      CoordenadasHastaLongitud(k - 1, columnas);
      assert (k - 1) * columnas + columnas == k * columnas;
    }
  }

  lemma FilaCoordenadasMiembros(f: int, columnas: nat)
    ensures forall y :: y in FilaCoordenadas(f, columnas) <==> y.fila == f && 0 <= y.columna < columnas
  {
    var fila := FilaCoordenadas(f, columnas);
    forall y: Coordenada | y.fila == f && 0 <= y.columna < columnas ensures y in fila {
      assert fila[y.columna] == y;
    }
  }

  lemma {:induction false} CoordenadasHastaMiembros(k: nat, columnas: nat)
    ensures forall y :: y in CoordenadasHasta(k, columnas) <==> Dentro(k, columnas, y)
  {
    if k > 0 {
      CoordenadasHastaMiembros(k - 1, columnas);
      FilaCoordenadasMiembros(k - 1, columnas);
    }
  }

  lemma {:induction false} CoordenadasHastaOrden(k: nat, columnas: nat)
    ensures FilaMayor(CoordenadasHasta(k, columnas))
  {
    if k > 0 {
      CoordenadasHastaOrden(k - 1, columnas);
      CoordenadasHastaMiembros(k - 1, columnas);
      var prev, fila := CoordenadasHasta(k - 1, columnas), FilaCoordenadas(k - 1, columnas);
      forall i, j | 0 <= i < j < |prev + fila|
        ensures Antes((prev + fila)[i], (prev + fila)[j])
      {
        if j >= |prev| && i < |prev| {
          assert prev[i] in prev;
        }
      }
    }
  }

  /** Every node's coordinate, in row-major order. */
  function TodasCoordenadas(t: Tablero): (r: seq<Coordenada>)
    ensures |r| == t.filas * t.columnas
    ensures forall y :: y in r <==> EnRango(t, y)
    ensures FilaMayor(r) && TodosEnRango(t, r)
  {
    CoordenadasHastaLongitud(t.filas, t.columnas);
    CoordenadasHastaMiembros(t.filas, t.columnas);
    CoordenadasHastaOrden(t.filas, t.columnas);
    CoordenadasHasta(t.filas, t.columnas)
  }

  /** How many nodes of the board are in state `e`. */
  function Contar(t: Tablero, e: EstadoCasilla): nat
    requires Forma(t)
  {
    |FiltrarEstado(t, TodasCoordenadas(t), e)|
  }

  /** Frontier: hidden with at least one revealed neighbour. */
  predicate EsFrontera(t: Tablero, y: Coordenada)
    requires Bien(t) && EnRango(t, y)
  {
    Celda(t, y).estado == DESCONOCIDA &&
    exists v :: v in VecinosDe(t, y) && Celda(t, v).estado == REVELADA
  }

  lemma FilaMayorDistintos(s: seq<Coordenada>)
    requires FilaMayor(s)
    ensures Distintos(s)
  {
    forall i, j | 0 <= i < j < |s| ensures s[i] != s[j] {
      assert Antes(s[i], s[j]);
    }
  }

  /** Counting a state over a list without repeats changes only through the one node that changed. */
  lemma {:induction false} CuentaCambio(t: Tablero, t2: Tablero, vs: seq<Coordenada>, v: Coordenada, e: EstadoCasilla)
    requires Forma(t) && Forma(t2) && t2.filas == t.filas && t2.columnas == t.columnas
    requires TodosEnRango(t, vs) && Distintos(vs) && EnRango(t, v)
    requires forall y :: EnRango(t, y) && y != v ==> Celda(t2, y).estado == Celda(t, y).estado
    ensures |FiltrarEstado(t2, vs, e)| + (if v in vs && Celda(t, v).estado == e then 1 else 0)
         == |FiltrarEstado(t, vs, e)| + (if v in vs && Celda(t2, v).estado == e then 1 else 0)
  {
    if vs != [] {
      assert Distintos(vs[1..]) by {
        forall i, j | 0 <= i < j < |vs[1..]| ensures vs[1..][i] != vs[1..][j] {
          assert vs[1..][i] == vs[i + 1] && vs[1..][j] == vs[j + 1];
        }
      }
      assert vs[0] == v ==> v !in vs[1..];
      CuentaCambio(t, t2, vs[1..], v, e);
    }
  }

  /** Changing the state of one node from `a` to `b` moves exactly one node from
      the count of `a` to the count of `b`. */
  lemma ContarCambio(t: Tablero, t2: Tablero, v: Coordenada, e: EstadoCasilla)
    requires Forma(t) && Forma(t2) && t2.filas == t.filas && t2.columnas == t.columnas
    requires EnRango(t, v)
    requires forall y :: EnRango(t, y) && y != v ==> Celda(t2, y).estado == Celda(t, y).estado
    ensures Contar(t2, e) + (if Celda(t, v).estado == e then 1 else 0)
         == Contar(t, e) + (if Celda(t2, v).estado == e then 1 else 0)
  {
    var todas := TodasCoordenadas(t);
    FilaMayorDistintos(todas);
    assert TodasCoordenadas(t2) == todas;
    CuentaCambio(t, t2, todas, v, e);
  }

  /** Mine flags of a list are read only from the `tieneMina` fields. */
  lemma {:induction false} FiltrarMinaIgual(t: Tablero, t2: Tablero, vs: seq<Coordenada>)
    requires Forma(t) && Forma(t2) && t2.filas == t.filas && t2.columnas == t.columnas
    requires TodosEnRango(t, vs)
    requires forall y :: y in vs ==> Celda(t2, y).tieneMina == Celda(t, y).tieneMina
    ensures FiltrarMina(t2, vs) == FiltrarMina(t, vs)
  {
    if vs != [] {
      FiltrarMinaIgual(t, t2, vs[1..]);
    }
  }

  /** The set of mined coordinates. */
  function Minas(t: Tablero): set<Coordenada>
    requires Forma(t)
  {
    set y | y in TodasCoordenadas(t) && Celda(t, y).tieneMina
  }

  /** How many entries of the shuffled list receive a mine: the placement
      loop stops at the requested count or at the end of the list. */
  function MinasAColocar(numeroMinas: int, total: nat): (k: nat)
    ensures k <= total
    ensures numeroMinas >= 0 ==> k == if numeroMinas < total then numeroMinas else total
  {
    if numeroMinas <= 0 then 0 else if numeroMinas < total then numeroMinas else total
  }

  lemma FilaMayorAgregar(s: seq<Coordenada>, y: Coordenada)
    requires FilaMayor(s) && forall z :: z in s ==> Antes(z, y)
    ensures FilaMayor(s + [y])
  {
    forall i, j | 0 <= i < j < |s + [y]| ensures Antes((s + [y])[i], (s + [y])[j]) {
      if j == |s| {
        assert s[i] in s;
      }
    }
  }

  /** A row-major list stays row-major with a cell before all of it put in front. */
  lemma FilaMayorAntepuesto(x: Coordenada, s: seq<Coordenada>)
    ensures FilaMayor(s) && (forall z :: z in s ==> Antes(x, z)) ==> FilaMayor([x] + s)
  {
    if FilaMayor(s) && forall z :: z in s ==> Antes(x, z) {
      forall i, j | 0 <= i < j < |[x] + s| ensures Antes(([x] + s)[i], ([x] + s)[j]) {
        assert ([x] + s)[j] == s[j - 1] && s[j - 1] in s;
      }
    }
  }

  /** In a row-major list the rest is row-major and the head comes before all of it. */
  lemma CabezaAntes(s: seq<Coordenada>)
    ensures FilaMayor(s) && s != [] ==> FilaMayor(s[1..]) && forall z :: z in s[1..] ==> Antes(s[0], z)
  {
    if FilaMayor(s) && s != [] {
      forall z | z in s[1..] ensures Antes(s[0], z) {
        var j :| 0 <= j < |s[1..]| && s[1..][j] == z;
        assert s[j + 1] == z;
      }
    }
  }

  /** In a row-major list, a cell before another sits at a smaller position. */
  lemma AntesIndice(s: seq<Coordenada>, a: nat, b: nat)
    requires FilaMayor(s) && a < |s| && b < |s| && Antes(s[a], s[b])
    ensures a < b
  {
  }

  lemma PrefijoAntes(s: seq<Coordenada>, i: nat)
    requires FilaMayor(s) && i < |s|
    ensures forall z :: z in s[..i] ==> Antes(z, s[i])
  {
    forall z | z in s[..i] ensures Antes(z, s[i]) {
      var j :| 0 <= j < i && s[..i][j] == z;
      assert s[j] == z;
    }
  }

  /** When exactly the first `k` entries of a list without repeats are mined,
      the board holds exactly `k` mines. */
  lemma CuentaMinasColocadas(t: Tablero, orden: seq<Coordenada>, k: nat)
    requires Forma(t) && TodosEnRango(t, orden) && Distintos(orden) && k <= |orden|
    requires forall x :: EnRango(t, x) ==> (Celda(t, x).tieneMina <==> x in orden[..k])
    ensures |Minas(t)| == k
  {
    var pre := orden[..k];
    assert Distintos(pre);
    DistintosCardinal(pre);
    assert Minas(t) == set y | y in pre;
  }

  lemma {:induction false} DistintosCardinal(s: seq<Coordenada>)
    requires Distintos(s)
    ensures |set y | y in s| == |s|
  {
    if s != [] {
      var init := s[..|s| - 1];
      assert Distintos(init);
      DistintosCardinal(init);
      assert (set y | y in s) == (set y | y in init) + {s[|s| - 1]};
      assert s[|s| - 1] !in init;
    }
  }

  /** The nodes of `minadas` hold a mine; every node is otherwise as in `t0`. */
  ghost predicate MinadoHasta(t0: Tablero, t: Tablero, minadas: seq<Coordenada>)
    requires Bien(t0)
  {
    Bien(t) && t.filas == t0.filas && t.columnas == t0.columnas &&
    forall x :: EnRango(t0, x) ==>
      Celda(t, x) == Celda(t0, x).(tieneMina := Celda(t0, x).tieneMina || x in minadas)
  }

  lemma MinadoCompleto(t0: Tablero, t: Tablero, minadas: seq<Coordenada>)
    requires Bien(t0) && MinadoHasta(t0, t, minadas)
    ensures forall x :: EnRango(t, x) ==>
      Celda(t, x).tieneMina == (Celda(t0, x).tieneMina || x in minadas) &&
      Celda(t, x).estado == Celda(t0, x).estado && Celda(t, x).vecinos == Celda(t0, x).vecinos &&
      Celda(t, x).numeroAdyacente == Celda(t0, x).numeroAdyacente
  {
  }

  /** The non-mine nodes of `hechos` carry their number of mine neighbours
      in `t0`; every other node is as in `t0`. */
  ghost predicate EtiquetadoHasta(t0: Tablero, t: Tablero, hechos: seq<Coordenada>)
    requires Bien(t0)
  {
    Bien(t) && t.filas == t0.filas && t.columnas == t0.columnas &&
    forall x :: EnRango(t0, x) ==>
      Celda(t, x) == Celda(t0, x).(
        numeroAdyacente := if x in hechos && !Celda(t0, x).tieneMina then MinasVecinas(t0, x)
                           else Celda(t0, x).numeroAdyacente)
  }

  /** Labelling one more non-mine node with its mine count keeps the labelling invariant. */
  lemma EtiquetadoPaso(t0: Tablero, t: Tablero, x: Coordenada, hechos: seq<Coordenada>, m: nat)
    requires Bien(t0) && EnRango(t0, x) && x !in hechos && EtiquetadoHasta(t0, t, hechos)
    requires !Celda(t, x).tieneMina && m == MinasVecinas(t0, x)
    ensures EtiquetadoHasta(t0, ConNodo(t, x, Celda(t, x).(numeroAdyacente := m)), hechos + [x])
  {
    BienConNodo(t, x, Celda(t, x).(numeroAdyacente := m));
  }

  /** A mined node keeps its label. */
  lemma EtiquetadoMina(t0: Tablero, t: Tablero, x: Coordenada, hechos: seq<Coordenada>)
    requires Bien(t0) && EnRango(t0, x) && EtiquetadoHasta(t0, t, hechos) && Celda(t, x).tieneMina
    ensures EtiquetadoHasta(t0, t, hechos + [x])
  {
  }

  /** Once every node is done, each non-mine node is labelled with its
      number of mine neighbours in the final board. */
  lemma EtiquetadoCompleto(t0: Tablero, t: Tablero, todos: seq<Coordenada>)
    requires Bien(t0) && EtiquetadoHasta(t0, t, todos)
    requires forall x :: EnRango(t0, x) ==> x in todos
    ensures forall x :: EnRango(t, x) ==>
      Celda(t, x) == Celda(t0, x).(
        numeroAdyacente := if Celda(t, x).tieneMina then Celda(t0, x).numeroAdyacente else MinasVecinas(t, x))
    ensures Etiquetado(t)
  {
    forall x | EnRango(t, x)
      ensures MinasVecinas(t, x) == MinasVecinas(t0, x)
    {
      FiltrarMinaIgual(t0, t, VecinosDe(t0, x));
    }
  }

  /** A grid of freshly built nodes is well formed. */
  lemma TableroInicialBien(filas: nat, columnas: nat, ns: seq<seq<Nodo>>)
    requires |ns| == filas && forall i :: 0 <= i < filas ==> |ns[i]| == columnas
    requires forall i, j :: 0 <= i < filas && 0 <= j < columnas ==> ns[i][j] == GrafoTablero.NodoInicial(filas, columnas, Coordenada(i, j))
    ensures Bien(Tablero(filas, columnas, ns, 0))
  {
    forall x | Dentro(filas, columnas, x) ensures ListaVecinos(filas, columnas, x, GrafoTablero.NodoInicial(filas, columnas, x).vecinos) {
      VecinosListados(filas, columnas, x);
    }
  }

  // ---------------------------------------------------------------------------
  // The board object

  /** The board the game controller owns and mutates. */
  class GrafoTablero {
    const filas: nat
    const columnas: nat
    var nodos: seq<seq<Nodo>>
    var totalMinas: int
    /** The last mine probability computed for each node (used only for display). */
    var probabilidades: seq<seq<real>>

    function Vista(): Tablero
      reads this
    {
      Tablero(filas, columnas, nodos, totalMinas)
    }

    ghost predicate Valid()
      reads this
    {
      Bien(Vista()) &&
      |probabilidades| == filas && (forall f :: 0 <= f < filas ==> |probabilidades[f]| == columnas)
    }

    /** A freshly built node at `x`: hidden, no mine, label 0, wired to its neighbours. */
    static function NodoInicial(filas: nat, columnas: nat, x: Coordenada): Nodo {
      Nodo(x.fila, x.columna, DESCONOCIDA, false, 0, Vecinos(filas, columnas, x))
    }

    /** The builder's inner loops over the row and column offsets. */
    static method ConectarVecinos(filas: nat, columnas: nat, f: int, c: int) returns (vs: seq<Coordenada>)
      ensures vs == Vecinos(filas, columnas, Coordenada(f, c))
    {
      ghost var x := Coordenada(f, c);
      ghost var k: nat := 0;
      vs := [];
      var df := -1;
      while df <= 1
        invariant -1 <= df <= 2 && k == (df + 1) * 3
        invariant vs == VecinosHasta(filas, columnas, x, k)
      {
        var dc := -1;
        while dc <= 1
          invariant -1 <= dc <= 2 && k == (df + 1) * 3 + dc + 1
          invariant vs == VecinosHasta(filas, columnas, x, k)
        {
          VecinosHastaPaso(filas, columnas, x, df, dc, k);
          var nf := f + df;
          var nc := c + dc;
          if !(df == 0 && dc == 0) && nf >= 0 && nf < filas && nc >= 0 && nc < columnas {
            vs := vs + [Coordenada(nf, nc)];
          }
          dc := dc + 1;
          k := k + 1;
        }
        df := df + 1;
      }
    }

    /** Builds the grid. Because neighbours are named by coordinate, the
        node-creation pass and the wiring pass are one pass here. */
    constructor (filas: nat, columnas: nat)
      ensures Valid() && this.filas == filas && this.columnas == columnas && totalMinas == 0
      ensures forall x :: EnRango(Vista(), x) ==> Celda(Vista(), x) == NodoInicial(filas, columnas, x)
      ensures forall x :: EnRango(Vista(), x) ==> probabilidades[x.fila][x.columna] == 0.0
    {
      var ns: seq<seq<Nodo>> := [];
      var f := 0;
      while f < filas
        invariant 0 <= f <= filas && |ns| == f
        invariant forall i :: 0 <= i < f ==> |ns[i]| == columnas
        invariant forall i, j :: 0 <= i < f && 0 <= j < columnas ==> ns[i][j] == NodoInicial(filas, columnas, Coordenada(i, j))
      {
        var fila := CrearFila(filas, columnas, f);
        ns := ns + [fila];
        f := f + 1;
      }
      this.filas := filas;
      this.columnas := columnas;
      nodos := ns;
      totalMinas := 0;
      probabilidades := seq(filas, _ => seq(columnas, _ => 0.0));
      TableroInicialBien(filas, columnas, ns);
    }

    /** The nodes of row `f`, each wired to its neighbours. */
    static method CrearFila(filas: nat, columnas: nat, f: int) returns (fila: seq<Nodo>)
      ensures |fila| == columnas
      ensures forall j :: 0 <= j < columnas ==> fila[j] == NodoInicial(filas, columnas, Coordenada(f, j))
    {
      fila := [];
      var c := 0;
      while c < columnas
        invariant 0 <= c <= columnas && |fila| == c
        invariant forall j :: 0 <= j < c ==> fila[j] == NodoInicial(filas, columnas, Coordenada(f, j))
      {
        var vs := ConectarVecinos(filas, columnas, f, c);
        fila := fila + [Nodo(f, c, DESCONOCIDA, false, 0, vs)];
        c := c + 1;
      }
    }

    /** Marks as mined the first `numeroMinas` coordinates of `orden` (a
        permutation of all coordinates standing for the shuffled node list),
        then labels every non-mine node. */
    method ColocarMinas(numeroMinas: int, orden: seq<Coordenada>)
      requires Valid()
      requires |orden| == filas * columnas && TodosEnRango(Vista(), orden) && Distintos(orden)
      modifies this
      ensures Valid() && totalMinas == numeroMinas && probabilidades == old(probabilidades)
      ensures forall x :: EnRango(Vista(), x) ==>
        Celda(Vista(), x).tieneMina == (old(Celda(Vista(), x).tieneMina) || x in orden[..MinasAColocar(numeroMinas, |orden|)])
      ensures forall x :: EnRango(Vista(), x) ==>
        Celda(Vista(), x).estado == old(Celda(Vista(), x).estado) &&
        Celda(Vista(), x).vecinos == old(Celda(Vista(), x).vecinos) &&
        (Celda(Vista(), x).tieneMina ==> Celda(Vista(), x).numeroAdyacente == old(Celda(Vista(), x).numeroAdyacente))
      ensures Etiquetado(Vista())
    {
      totalMinas := numeroMinas;
      ghost var t0 := Vista();
      var i := 0;
      assert orden[..0] == [];
      while i < numeroMinas && i < |orden|
        invariant 0 <= i <= MinasAColocar(numeroMinas, |orden|)
        invariant Valid() && totalMinas == numeroMinas && probabilidades == old(probabilidades)
        invariant TodosEnRango(t0, orden) && MinadoHasta(t0, Vista(), orden[..i])
      {
        assert orden[..i + 1] == orden[..i] + [orden[i]];
        MinarNodo(t0, orden[i], orden[..i]);
        i := i + 1;
      }
      ghost var t1 := Vista();
      MinadoCompleto(t0, t1, orden[..i]);
      CalcularNumerosAdyacentes();
    }

    /** Places a mine on the node at `x`. */
    method MinarNodo(ghost t0: Tablero, x: Coordenada, ghost minadas: seq<Coordenada>)
      requires Bien(t0) && EnRango(t0, x)
      requires Valid() && MinadoHasta(t0, Vista(), minadas)
      modifies this
      ensures Valid() && MinadoHasta(t0, Vista(), minadas + [x])
      ensures totalMinas == old(totalMinas) && probabilidades == old(probabilidades)
    {
      var n := nodos[x.fila][x.columna].(tieneMina := true);
      BienConNodo(Vista(), x, n);
      nodos := nodos[x.fila := nodos[x.fila][x.columna := n]];
    }

    /** Labels every non-mine node with its number of mine neighbours; mine
        nodes keep their label. */
    method CalcularNumerosAdyacentes()
      requires Valid()
      modifies this
      ensures Valid() && totalMinas == old(totalMinas) && probabilidades == old(probabilidades)
      ensures forall x :: EnRango(Vista(), x) ==>
        Celda(Vista(), x) == old(Celda(Vista(), x)).(
          numeroAdyacente := if Celda(Vista(), x).tieneMina then old(Celda(Vista(), x).numeroAdyacente)
                             else MinasVecinas(Vista(), x))
      ensures Etiquetado(Vista())
    {
      ghost var t0 := Vista();
      var todos := TodasCoordenadas(Vista());
      FilaMayorDistintos(todos);
      var i := 0;
      assert todos[..0] == [];
      while i < |todos|
        invariant 0 <= i <= |todos|
        invariant Valid() && totalMinas == old(totalMinas) && probabilidades == old(probabilidades)
        invariant EtiquetadoHasta(t0, Vista(), todos[..i])
      {
        var x := todos[i];
        assert todos[..i + 1] == todos[..i] + [x];
        assert x !in todos[..i];
        EtiquetarNodo(t0, x, todos[..i]);
        i := i + 1;
      }
      assert todos[..i] == todos;
      EtiquetadoCompleto(t0, Vista(), todos);
    }

    /** Labels the node at `x` when it holds no mine. */
    method EtiquetarNodo(ghost t0: Tablero, x: Coordenada, ghost hechos: seq<Coordenada>)
      requires Bien(t0) && EnRango(t0, x) && x !in hechos
      requires Valid() && EtiquetadoHasta(t0, Vista(), hechos)
      modifies this
      ensures Valid() && EtiquetadoHasta(t0, Vista(), hechos + [x])
      ensures totalMinas == old(totalMinas) && probabilidades == old(probabilidades)
    {
      var n := nodos[x.fila][x.columna];
      ghost var t := Vista();
      if !n.tieneMina {
        FiltrarMinaIgual(t0, t, VecinosDe(t0, x));
        var m := |FiltrarMina(Vista(), n.vecinos)|;
        EtiquetadoPaso(t0, t, x, hechos, m);
        nodos := nodos[x.fila := nodos[x.fila][x.columna := n.(numeroAdyacente := m)]];
        assert Vista() == ConNodo(t, x, n.(numeroAdyacente := m));
      } else {
        EtiquetadoMina(t0, t, x, hechos);
      }
    }

    /** The hidden nodes with at least one revealed neighbour, in row-major order. */
    method ObtenerNodosFrontera() returns (frontera: seq<Coordenada>)
      requires Valid()
      ensures forall y :: y in frontera <==> EnRango(Vista(), y) && EsFrontera(Vista(), y)
      ensures FilaMayor(frontera)
    {
      var t := Vista();
      var todos := TodasCoordenadas(t);
      frontera := [];
      var i := 0;
      while i < |todos|
        invariant 0 <= i <= |todos|
        invariant forall y :: y in frontera <==> y in todos[..i] && EsFrontera(t, y)
        invariant FilaMayor(frontera)
      {
        var nodo := todos[i];
        assert todos[..i + 1] == todos[..i] + [nodo];
        if Celda(t, nodo).estado == DESCONOCIDA {
          var tieneVecinoRevelado := exists v :: v in VecinosDe(t, nodo) && Celda(t, v).estado == REVELADA;
          if tieneVecinoRevelado {
            PrefijoAntes(todos, i);
            FilaMayorAgregar(frontera, nodo);
            frontera := frontera + [nodo];
          }
        }
        i := i + 1;
      }
      assert todos[..i] == todos;
    }

    /** Records the probability last computed for the node at `x`. */
    method FijarProbabilidad(x: Coordenada, p: real)
      requires Valid() && EnRango(Vista(), x)
      modifies this
      ensures Valid() && nodos == old(nodos) && totalMinas == old(totalMinas)
      ensures probabilidades == old(probabilidades[x.fila := probabilidades[x.fila][x.columna := p]])
    {
      probabilidades := probabilidades[x.fila := probabilidades[x.fila][x.columna := p]];
    }
  }
}
