/** The inference engine. It owns the rule objects, sorted by priority, and
    the Bayesian network, and runs three phases in turn: deterministic rules,
    then patterns, then the network. Each accepted inference is recorded in
    the history, which also empties the network's cache. */
module Motor {
  import opened Tipos
  import opened Grafo
  import opened Reglas
  import opened Bayesiano

  /** The rules in the order the engine creates them. */
  const Creadas: seq<TipoRegla> := [MinasCompletas, Saturacion, Subconjunto, Patron121]

  /** The kinds of a list of rule objects. */
  function ReglasDe(rs: seq<ReglaInferencia>): (ks: seq<TipoRegla>)
    ensures |ks| == |rs| && forall i :: 0 <= i < |rs| ==> ks[i] == rs[i].regla
  {
    if rs == [] then [] else [rs[0].regla] + ReglasDe(rs[1..])
  }

  // ---------------------------------------------------------------------------
  // Sorting the rules by priority

  predicate PorPrioridad(rs: seq<ReglaInferencia>) {
    forall i, j :: 0 <= i < j < |rs| ==> rs[i].prioridad <= rs[j].prioridad
  }

  /** Inserts `r` before the first rule of equal or greater priority. */
  function InsertarRegla(r: ReglaInferencia, rs: seq<ReglaInferencia>): seq<ReglaInferencia> {
    if rs == [] || r.prioridad <= rs[0].prioridad then [r] + rs
    else [rs[0]] + InsertarRegla(r, rs[1..])
  }

  /** The stable sort by ascending priority. */
  function OrdenarPorPrioridad(rs: seq<ReglaInferencia>): seq<ReglaInferencia> {
    if rs == [] then [] else InsertarRegla(rs[0], OrdenarPorPrioridad(rs[1..]))
  }

  lemma {:induction false} InsertarReglaPermuta(r: ReglaInferencia, rs: seq<ReglaInferencia>)
    ensures multiset(InsertarRegla(r, rs)) == multiset(rs) + multiset{r}
  {
    if rs != [] && r.prioridad > rs[0].prioridad {
      InsertarReglaPermuta(r, rs[1..]);
      assert rs == [rs[0]] + rs[1..];
    }
  }

  lemma {:induction false} InsertarReglaOrdenada(r: ReglaInferencia, rs: seq<ReglaInferencia>)
    requires PorPrioridad(rs)
    ensures PorPrioridad(InsertarRegla(r, rs))
    ensures InsertarRegla(r, rs)[0] == r || InsertarRegla(r, rs)[0] == rs[0]
  {
    if rs != [] && r.prioridad > rs[0].prioridad {
      var resto := InsertarRegla(r, rs[1..]);
      InsertarReglaOrdenada(r, rs[1..]);
      assert rs == [rs[0]] + rs[1..];
      assert resto[0].prioridad >= rs[0].prioridad;
      var res := [rs[0]] + resto;
      forall i, j | 0 <= i < j < |res| ensures res[i].prioridad <= res[j].prioridad {
        if i > 0 {
          assert res[i] == resto[i - 1] && res[j] == resto[j - 1];
        } else if j > 1 {
          assert resto[0].prioridad <= resto[j - 1].prioridad;
        }
      }
    }
  }

  /** The sort returns a permutation of its input, in ascending priority. */
  lemma {:induction false} OrdenarPorPrioridadCorrecto(rs: seq<ReglaInferencia>)
    ensures multiset(OrdenarPorPrioridad(rs)) == multiset(rs) && PorPrioridad(OrdenarPorPrioridad(rs))
  {
    if rs != [] {
      assert rs == [rs[0]] + rs[1..];
      OrdenarPorPrioridadCorrecto(rs[1..]);
      InsertarReglaPermuta(rs[0], OrdenarPorPrioridad(rs[1..]));
      InsertarReglaOrdenada(rs[0], OrdenarPorPrioridad(rs[1..]));
    }
  }

  /** A list already in priority order is left exactly as it is; in
      particular the two rules of priority 1 keep their creation order. */
  lemma {:induction false} OrdenadaFija(rs: seq<ReglaInferencia>)
    requires PorPrioridad(rs)
    ensures OrdenarPorPrioridad(rs) == rs
  {
    if rs != [] {
      OrdenadaFija(rs[1..]);
      assert rs == [rs[0]] + rs[1..];
    }
  }

  // ---------------------------------------------------------------------------
  // First match

  /** The first position from `i` on that holds a value; `|os|` when none does. */
  function Primera<T>(os: seq<Option<T>>, i: nat): (k: nat)
    requires i <= |os|
    decreases |os| - i
    ensures i <= k <= |os|
    ensures k < |os| ==> os[k].Some?
    ensures forall m :: i <= m < k ==> os[m].None?
  {
    if i == |os| || os[i].Some? then i else Primera(os, i + 1)
  }

  /** The value at the first position that holds one. */
  function Primero<T>(os: seq<Option<T>>): Option<T> {
    var k := Primera(os, 0);
    if k < |os| then os[k] else None
  }

  // ---------------------------------------------------------------------------
  // The two rule phases

  /** What a phase accepts from a rule: success, and for the pattern phase a
      certainty of at least 0.9. */
  predicate Aceptado(fase: TipoInferencia, r: ResultadoInferencia) {
    r.exito && (fase == PATRON_RECONOCIDO ==> r.certeza >= 0.9)
  }

  /** Rule `k` on node `x` during phase `fase`: the rule's result when the
      rule is of the phase's kind, applies to the node and its result is
      accepted; nothing otherwise. */
  function Intento(t: Tablero, fase: TipoInferencia, k: TipoRegla, x: Coordenada): Option<ResultadoInferencia>
    requires Bien(t) && EnRango(t, x)
  {
    if Categoria(k) == fase && EsAplicable(k, t, x) && Aceptado(fase, AplicarRegla(k, t, x))
    then Some(AplicarRegla(k, t, x)) else None
  }

  /** The counters of a rule of kind `k` after it is tried on `x` during
      phase `fase`, from `total0` attempts and `exitos0` successes: they move
      as `Aplicar` moves them when the rule is of the phase's kind and
      applies to the node, and stay put otherwise. */
  ghost predicate Contado(k: TipoRegla, t: Tablero, fase: TipoInferencia, x: Coordenada,
                          total0: nat, exitos0: nat, total: nat, exitos: nat)
    requires Bien(t) && EnRango(t, x)
  {
    if Categoria(k) == fase && EsAplicable(k, t, x) then
      total == total0 + (if Registra(k, t, x) then 1 else 0) &&
      exitos == exitos0 + (if AplicarRegla(k, t, x).exito then 1 else 0)
    else total == total0 && exitos == exitos0
  }

  /** The attempts of the rules `ks` on `x`, in list order. */
  function Intentos(t: Tablero, fase: TipoInferencia, ks: seq<TipoRegla>, x: Coordenada): (os: seq<Option<ResultadoInferencia>>)
    requires Bien(t) && EnRango(t, x)
    ensures |os| == |ks| && forall j :: 0 <= j < |ks| ==> os[j] == Intento(t, fase, ks[j], x)
  {
    if ks == [] then [] else [Intento(t, fase, ks[0], x)] + Intentos(t, fase, ks[1..], x)
  }

  /** The first accepted result of the rules `ks` on `x`. */
  function EnNodo(t: Tablero, fase: TipoInferencia, ks: seq<TipoRegla>, x: Coordenada): Option<ResultadoInferencia>
    requires Bien(t) && EnRango(t, x)
  {
    Primero(Intentos(t, fase, ks, x))
  }

  /** The per-node outcomes over the nodes `xs`, in list order. */
  function EnNodos(t: Tablero, fase: TipoInferencia, ks: seq<TipoRegla>, xs: seq<Coordenada>): (os: seq<Option<ResultadoInferencia>>)
    requires Bien(t) && TodosEnRango(t, xs)
    ensures |os| == |xs| && forall i :: 0 <= i < |xs| ==> os[i] == EnNodo(t, fase, ks, xs[i])
  {
    if xs == [] then [] else [EnNodo(t, fase, ks, xs[0])] + EnNodos(t, fase, ks, xs[1..])
  }

  /** The revealed nodes in row-major order. */
  function Revelados(t: Tablero): (r: seq<Coordenada>)
    requires Bien(t)
    ensures forall y :: y in r <==> EnRango(t, y) && Celda(t, y).estado == REVELADA
    ensures FilaMayor(r) && TodosEnRango(t, r)
  {
    FiltrarEstado(t, TodasCoordenadas(t), REVELADA)
  }

  /** A rule phase: the first accepted result over the revealed nodes in
      row-major order and, for each node, over the rules in list order. */
  function Fase(t: Tablero, fase: TipoInferencia, ks: seq<TipoRegla>): Option<ResultadoInferencia>
    requires Bien(t)
  {
    Primero(EnNodos(t, fase, ks, Revelados(t)))
  }

  /** The first accepted attempt on one node: nothing exactly when every
      rule's attempt fails, and otherwise the attempt of rule `j`, every
      earlier rule's attempt having failed. */
  lemma EnNodoCorrecto(t: Tablero, fase: TipoInferencia, ks: seq<TipoRegla>, x: Coordenada)
    requires Bien(t) && EnRango(t, x)
    ensures EnNodo(t, fase, ks, x).None? <==> forall j :: 0 <= j < |ks| ==> Intento(t, fase, ks[j], x).None?
    ensures EnNodo(t, fase, ks, x).Some? ==>
      var j := Primera(Intentos(t, fase, ks, x), 0);
      j < |ks| && EnNodo(t, fase, ks, x) == Intento(t, fase, ks[j], x) &&
      forall m :: 0 <= m < j ==> Intento(t, fase, ks[m], x).None?
  {
    var os := Intentos(t, fase, ks, x);
    var j := Primera(os, 0);
    if j == |os| {
      assert forall m :: 0 <= m < |ks| ==> os[m].None?;
    }
  }

  /** An accepted attempt is a successful result of the phase's own kind,
      targets hidden cells and, in the pattern phase, has certainty at
      least 0.9. */
  lemma IntentoAceptado(t: Tablero, fase: TipoInferencia, k: TipoRegla, x: Coordenada)
    requires Bien(t) && EnRango(t, x)
    ensures var o := Intento(t, fase, k, x);
      o.Some? ==>
        o.value == AplicarRegla(k, t, x) && Categoria(k) == fase && EsAplicable(k, t, x) &&
        o.value.exito && o.value.tipo == fase && ObjetivosOcultos(t, o.value) &&
        (fase == PATRON_RECONOCIDO ==> o.value.certeza >= 0.9)
  {
  }

  /** What a node yields is a success of positive certainty. */
  lemma EnNodoExitoso(t: Tablero, fase: TipoInferencia, ks: seq<TipoRegla>, x: Coordenada)
    requires Bien(t) && EnRango(t, x)
    ensures var o := EnNodo(t, fase, ks, x);
      o.Some? ==> o.value.exito && o.value.certeza > 0.0
  {
    EnNodoCorrecto(t, fase, ks, x);
    if EnNodo(t, fase, ks, x).Some? {
      var j := Primera(Intentos(t, fase, ks, x), 0);
      IntentoAceptado(t, fase, ks[j], x);
    }
  }

  /** A rule phase yields the outcome of the first revealed node, in
      row-major order, that yields anything. */
  lemma FasePrimerNodo(t: Tablero, fase: TipoInferencia, ks: seq<TipoRegla>)
    requires Bien(t)
    ensures var xs := Revelados(t);
      var i := Primera(EnNodos(t, fase, ks, xs), 0);
      (Fase(t, fase, ks).None? <==> forall m :: 0 <= m < |xs| ==> EnNodo(t, fase, ks, xs[m]).None?) &&
      (Fase(t, fase, ks).Some? ==>
        i < |xs| && Fase(t, fase, ks) == EnNodo(t, fase, ks, xs[i]) &&
        forall y :: y in xs && Antes(y, xs[i]) ==> EnNodo(t, fase, ks, y).None?)
  {
    var xs := Revelados(t);
    var os := EnNodos(t, fase, ks, xs);
    var i := Primera(os, 0);
    if i < |xs| {
      forall y | y in xs && Antes(y, xs[i]) ensures EnNodo(t, fase, ks, y).None? {
        var m :| 0 <= m < |xs| && xs[m] == y;
        AntesIndice(xs, m, i);
      }
    }
  }

  /** What a rule phase yields is a successful result of the phase's kind,
      produced by a rule of that kind that applies to a revealed node; its
      targets are hidden cells and, in the pattern phase, its certainty is at
      least 0.9. */
  lemma FaseExitosa(t: Tablero, fase: TipoInferencia, ks: seq<TipoRegla>)
    requires Bien(t)
    ensures Fase(t, fase, ks).Some? ==>
      var r := Fase(t, fase, ks).value;
      r.exito && r.tipo == fase && ObjetivosOcultos(t, r) &&
      (fase == PATRON_RECONOCIDO ==> r.certeza >= 0.9) &&
      exists x, j :: EnRango(t, x) && Celda(t, x).estado == REVELADA && 0 <= j < |ks| &&
        Categoria(ks[j]) == fase && EsAplicable(ks[j], t, x) && r == AplicarRegla(ks[j], t, x)
  {
    var xs := Revelados(t);
    var os := EnNodos(t, fase, ks, xs);
    var i := Primera(os, 0);
    if i < |xs| {
      var x := xs[i];
      assert x in xs;
      EnNodoCorrecto(t, fase, ks, x);
      var j := Primera(Intentos(t, fase, ks, x), 0);
      IntentoAceptado(t, fase, ks[j], x);
    }
  }

  /** A rule phase yields nothing exactly when no rule of the phase's kind
      has an accepted result on any revealed node. */
  lemma FaseVacia(t: Tablero, fase: TipoInferencia, ks: seq<TipoRegla>)
    requires Bien(t)
    ensures Fase(t, fase, ks).None? <==>
      forall x, j :: EnRango(t, x) && Celda(t, x).estado == REVELADA && 0 <= j < |ks| ==>
        Intento(t, fase, ks[j], x).None?
  {
    var xs := Revelados(t);
    var os := EnNodos(t, fase, ks, xs);
    var i := Primera(os, 0);
    if i == |os| {
      forall x, j | EnRango(t, x) && Celda(t, x).estado == REVELADA && 0 <= j < |ks|
        ensures Intento(t, fase, ks[j], x).None?
      {
        var m :| 0 <= m < |xs| && xs[m] == x;
        assert os[m].None?;
        EnNodoCorrecto(t, fase, ks, x);
      }
    } else {
      var x := xs[i];
      assert x in xs;
      EnNodoCorrecto(t, fase, ks, x);
      var j := Primera(Intentos(t, fase, ks, x), 0);
      assert Intento(t, fase, ks[j], x).Some?;
    }
  }

  // ---------------------------------------------------------------------------
  // The network phase

  /** The network's decision on its best cell `mejor` of probability `p`:
      reveal it when `p` is below 0.5, with certainty 1 - p; flag it when
      `p` is above 0.85, with certainty p; otherwise nothing. */
  function DecisionBayesiana(mejor: Option<Coordenada>, p: real): (r: Option<ResultadoInferencia>)
    ensures r.Some? <==> mejor.Some? && (p < 0.5 || p > 0.85)
    ensures r.Some? ==>
      r.value.exito && r.value.tipo == RED_BAYESIANA && r.value.coordenadas == [mejor.value] &&
      r.value.certeza > 0.5 &&
      (r.value.accion == Some(REVELAR) <==> p < 0.5) &&
      (r.value.accion == Some(MARCAR_MINA) <==> p >= 0.5) &&
      r.value.certeza == (if p < 0.5 then 1.0 - p else p)
  {
    if mejor.Some? && p < 0.5 then
      Some(ResultadoInferencia(true, Some(REVELAR), [mejor.value], 1.0 - p, RED_BAYESIANA))
    else if mejor.Some? && p > 0.85 then
      Some(ResultadoInferencia(true, Some(MARCAR_MINA), [mejor.value], p, RED_BAYESIANA))
    else None
  }

  /** The full cycle on board `t` with network cache `cache`: the first
      phase that yields something. */
  ghost function Ciclo(t: Tablero, cache: map<Coordenada, real>, ks: seq<TipoRegla>): Option<ResultadoInferencia>
    requires Bien(t)
  {
    var r := FasesReglas(t, ks);
    if r.Some? then r
    else DecisionBayesiana(MejorMovimiento(t, cache).0, MejorMovimiento(t, cache).1)
  }

  /** The two rule phases of the cycle: the deterministic rules, then the
      patterns when those yield nothing. */
  ghost function FasesReglas(t: Tablero, ks: seq<TipoRegla>): Option<ResultadoInferencia>
    requires Bien(t)
  {
    var d := Fase(t, LOGICA_DETERMINISTA, ks);
    if d.Some? then d else Fase(t, PATRON_RECONOCIDO, ks)
  }

  /** The cycle is the rule phases' result when they yield one, and the
      network's decision otherwise. */
  lemma CicloPorFases(t: Tablero, cache: map<Coordenada, real>, ks: seq<TipoRegla>)
    requires Bien(t)
    ensures FasesReglas(t, ks).Some? ==> Ciclo(t, cache, ks) == FasesReglas(t, ks)
    ensures FasesReglas(t, ks).None? ==>
      Ciclo(t, cache, ks) == DecisionBayesiana(MejorMovimiento(t, cache).0, MejorMovimiento(t, cache).1)
  {
  }

  /** The cycle yields a successful result targeting hidden cells, tagged
      with the phase that produced it; the network is consulted only when
      neither rule phase yields anything, and then acts on the hidden cell
      of least probability. It yields nothing exactly when both rule phases
      fail and the network's best probability lies in [0.5, 0.85] or no
      cell is hidden. */
  lemma CicloCorrecto(t: Tablero, cache: map<Coordenada, real>, ks: seq<TipoRegla>)
    requires Bien(t)
    ensures var r := Ciclo(t, cache, ks);
      r.Some? ==>
        r.value.exito && |r.value.coordenadas| > 0 && r.value.accion.Some? &&
        (forall y :: y in r.value.coordenadas ==> EnRango(t, y) && Celda(t, y).estado == DESCONOCIDA)
    ensures var r := Ciclo(t, cache, ks);
      r.Some? && r.value.tipo == RED_BAYESIANA ==>
        Fase(t, LOGICA_DETERMINISTA, ks).None? && Fase(t, PATRON_RECONOCIDO, ks).None? &&
        forall y :: EnRango(t, y) && Celda(t, y).estado == DESCONOCIDA ==>
          MejorMovimiento(t, cache).1 <= ProbabilidadNodo(t, cache, y)
    ensures var r := Ciclo(t, cache, ks);
      r.None? <==>
        Fase(t, LOGICA_DETERMINISTA, ks).None? && Fase(t, PATRON_RECONOCIDO, ks).None? &&
        (MejorMovimiento(t, cache).0.None? ||
         0.5 <= MejorMovimiento(t, cache).1 <= 0.85)
  {
    FaseExitosa(t, LOGICA_DETERMINISTA, ks);
    FaseExitosa(t, PATRON_RECONOCIDO, ks);
    MejorMovimientoCorrecto(t, cache);
  }

  // ---------------------------------------------------------------------------
  // Statistics

  /** Uses per inference kind, counted from the front of the history as the
      engine's loop does: a kind is present once it has been used. */
  function ConteoTipos(h: seq<ResultadoInferencia>): map<TipoInferencia, nat>
    decreases |h|
  {
    if h == [] then map[]
    else
      var m := ConteoTipos(h[..|h| - 1]);
      var k := h[|h| - 1].tipo;
      m[k := (if k in m then m[k] else 0) + 1]
  }

  /** The number of entries of kind `k`. */
  function Usos(h: seq<ResultadoInferencia>, k: TipoInferencia): nat {
    if h == [] then 0 else (if h[0].tipo == k then 1 else 0) + Usos(h[1..], k)
  }

  lemma {:induction false} UsosAgregar(h: seq<ResultadoInferencia>, r: ResultadoInferencia, k: TipoInferencia)
    ensures Usos(h + [r], k) == Usos(h, k) + if r.tipo == k then 1 else 0
  {
    if h != [] {
      assert (h + [r])[1..] == h[1..] + [r];
      UsosAgregar(h[1..], r, k);
    }
  }

  /** The count map holds exactly the kinds used, each with its number of uses. */
  lemma {:induction false} ConteoUsos(h: seq<ResultadoInferencia>)
    decreases |h|
    ensures forall k :: k in ConteoTipos(h) <==> Usos(h, k) > 0
    ensures forall k :: k in ConteoTipos(h) ==> ConteoTipos(h)[k] == Usos(h, k)
  {
    if h != [] {
      var init := h[..|h| - 1];
      ConteoUsos(init);
      assert h == init + [h[|h| - 1]];
      forall k ensures Usos(h, k) == Usos(init, k) + if h[|h| - 1].tipo == k then 1 else 0 {
        UsosAgregar(init, h[|h| - 1], k);
      }
    }
  }

  /** Every entry is of one of the four kinds, so the uses add up to the
      history length. */
  lemma {:induction false} UsosSuman(h: seq<ResultadoInferencia>)
    ensures Usos(h, LOGICA_DETERMINISTA) + Usos(h, PATRON_RECONOCIDO) + Usos(h, RED_BAYESIANA) + Usos(h, HEURISTICA) == |h|
  {
    if h != [] {
      UsosSuman(h[1..]);
    }
  }

  function SumaCertezas(h: seq<ResultadoInferencia>): real
    decreases |h|
  {
    if h == [] then 0.0 else SumaCertezas(h[..|h| - 1]) + h[|h| - 1].certeza
  }

  /** The mean certainty, 0 for an empty history. */
  function Promedio(h: seq<ResultadoInferencia>): real {
    if |h| > 0 then SumaCertezas(h) / |h| as real else 0.0
  }

  /** One more term between `lo` and `hi` keeps a sum of `n` such terms
      between `n * lo` and `n * hi`. */
  lemma Acotar(n: real, s: real, c: real, lo: real, hi: real)
    requires n * lo <= s <= n * hi && lo <= c <= hi
    ensures (n + 1.0) * lo <= s + c <= (n + 1.0) * hi
  {
  }

  lemma {:induction false} SumaAcotada(h: seq<ResultadoInferencia>, lo: real, hi: real)
    requires forall r :: r in h ==> lo <= r.certeza <= hi
    decreases |h|
    ensures |h| as real * lo <= SumaCertezas(h) <= |h| as real * hi
  {
    if h != [] {
      var init := h[..|h| - 1];
      var c := h[|h| - 1].certeza;
      forall r | r in init ensures lo <= r.certeza <= hi {
        assert r in h;
      }
      assert lo <= c <= hi by {
        assert h[|h| - 1] in h;
      }
      SumaAcotada(init, lo, hi);
      Acotar(|init| as real, SumaCertezas(init), c, lo, hi);
      assert SumaCertezas(h) == SumaCertezas(init) + c;
      assert |h| as real == |init| as real + 1.0;
    }
  }

  /** When every certainty lies in [lo, hi], so does the mean of a non-empty history. */
  lemma PromedioAcotado(h: seq<ResultadoInferencia>, lo: real, hi: real)
    requires |h| > 0 && forall r :: r in h ==> lo <= r.certeza <= hi
    ensures lo <= Promedio(h) <= hi
  {
    SumaAcotada(h, lo, hi);
    var n := |h| as real;
    var s := SumaCertezas(h);
    assert s / n * n == s;
    if s / n < lo {
      assert s / n * n < lo * n;
    }
    if s / n > hi {
      assert s / n * n > hi * n;
    }
  }

  /** The success rate of each rule, keyed by the rule's name. */
  ghost predicate TasasDe(rs: seq<ReglaInferencia>, m: map<string, real>)
    reads rs
    requires forall i :: 0 <= i < |rs| ==> rs[i].Valid()
  {
    (forall n :: n in m <==> exists i :: 0 <= i < |rs| && rs[i].nombre == n) &&
    (forall i :: 0 <= i < |rs| ==> m[rs[i].nombre] == rs[i].TasaExito())
  }

  /** Adding the entry of a rule whose name is new. */
  lemma TasasAgregar(rs: seq<ReglaInferencia>, m: map<string, real>, r: ReglaInferencia)
    requires (forall i :: 0 <= i < |rs| ==> rs[i].Valid()) && r.Valid() && TasasDe(rs, m)
    requires forall i :: 0 <= i < |rs| ==> rs[i].nombre != r.nombre
    ensures TasasDe(rs + [r], m[r.nombre := r.TasaExito()])
  {
    var rs2 := rs + [r];
    var m2 := m[r.nombre := r.TasaExito()];
    forall n ensures n in m2 <==> exists i :: 0 <= i < |rs2| && rs2[i].nombre == n {
      if n in m && n != r.nombre {
        var i :| 0 <= i < |rs| && rs[i].nombre == n;
        assert rs2[i] == rs[i];
      }
      if n == r.nombre {
        assert rs2[|rs|] == r;
      }
    }
    forall i | 0 <= i < |rs2| ensures m2[rs2[i].nombre] == rs2[i].TasaExito() {
      if i < |rs| {
        assert rs2[i] == rs[i];
      }
    }
  }

  /** One more rule of a list with pairwise different kinds: its name is
      new, so its entry extends the table of the rules before it. */
  lemma TasasPaso(rs: seq<ReglaInferencia>, m: map<string, real>, j: nat)
    requires forall i :: 0 <= i < |rs| ==> rs[i].Valid()
    requires forall i, k :: 0 <= i < k < |rs| ==> rs[i].regla != rs[k].regla
    requires j < |rs| && TasasDe(rs[..j], m)
    ensures TasasDe(rs[..j + 1], m[rs[j].nombre := rs[j].TasaExito()])
  {
    forall i | 0 <= i < j ensures rs[..j][i].nombre != rs[j].nombre {
      NombresDistintos(rs[i].regla, rs[j].regla);
    }
    TasasAgregar(rs[..j], m, rs[j]);
    assert rs[..j + 1] == rs[..j] + [rs[j]];
  }

  /** The names of the four rules are pairwise different. */
  lemma NombresDistintos(k1: TipoRegla, k2: TipoRegla)
    requires k1 != k2
    ensures Nombre(k1) != Nombre(k2)
  {
    match k1
    case MinasCompletas => assert Nombre(k1)[0] == 'M';
      assert Nombre(k2)[0] != 'M' || |Nombre(k2)| != |Nombre(k1)|;
    case Saturacion => assert Nombre(k1)[0] == 'S' && |Nombre(k1)| == 10;
    case Subconjunto => assert Nombre(k1)[1] == 'u';
    case Patron121 => assert Nombre(k1)[0] == 'P';
  }

  /** The position of each kind in the creation order. */
  function Posicion(k: TipoRegla): nat {
    match k
    case MinasCompletas => 0
    case Saturacion => 1
    case Subconjunto => 2
    case Patron121 => 3
  }

  /** The kinds created by the engine are pairwise different. */
  lemma CreadasDistintas()
    ensures forall i, j :: 0 <= i < j < |Creadas| ==> Creadas[i] != Creadas[j]
  {
    forall i | 0 <= i < |Creadas| ensures Posicion(Creadas[i]) == i {
      if i == 0 {
      } else if i == 1 {
      } else if i == 2 {
      }
    }
  }

  /** The rules of a list in creation order have pairwise different kinds,
      hence are pairwise different objects. */
  lemma ReglasDistintas(rs: seq<ReglaInferencia>)
    requires ReglasDe(rs) == Creadas
    ensures forall i, j :: 0 <= i < j < |rs| ==> rs[i].regla != rs[j].regla && rs[i] != rs[j]
  {
    CreadasDistintas();
    forall i, j | 0 <= i < j < |rs| ensures rs[i].regla != rs[j].regla {
      assert rs[i].regla == Creadas[i] && rs[j].regla == Creadas[j];
    }
  }

  // ---------------------------------------------------------------------------
  // The probability map

  /** The list of estimates as a map from cell to probability, filled in
      list order (a later entry for the same cell overwrites an earlier
      one). */
  function MapaDe(s: seq<ProbabilidadCasilla>): map<Coordenada, real>
    decreases |s|
  {
    if s == [] then map[]
    else
      var u := s[|s| - 1];
      MapaDe(s[..|s| - 1])[u.coordenada := u.probabilidad]
  }

  /** Every listed cell is a key, and every key carries a value listed for
      it. */
  lemma {:induction false} MapaDeEntradas(s: seq<ProbabilidadCasilla>)
    ensures forall e :: e in s ==> e.coordenada in MapaDe(s)
    ensures forall y :: y in MapaDe(s) ==> ProbabilidadCasilla(y, MapaDe(s)[y]) in s
    decreases |s|
  {
    if s != [] {
      var p := s[..|s| - 1];
      var u := s[|s| - 1];
      MapaDeEntradas(p);
      assert s == p + [u];
    }
  }

  /** The engine's probability map on board `t`: its keys are exactly the
      hidden cells, each with the network's estimate for it. */
  lemma MapaProbabilidadesCorrecto(t: Tablero, cache: map<Coordenada, real>)
    requires Bien(t)
    ensures var m := MapaDe(Ordenar(Mapa(t, cache)));
      (forall y :: y in m <==> EnRango(t, y) && Celda(t, y).estado == DESCONOCIDA) &&
      (forall y :: y in m ==> m[y] == ProbabilidadNodo(t, cache, y))
  {
    var s := Mapa(t, cache);
    var o := Ordenar(s);
    MapaEntradas(t, cache);
    MapaDeEntradas(o);
    forall e | e in o ensures e in s {
      assert e in multiset(o);
    }
    forall e | e in s ensures e in o {
      assert e in multiset(s);
    }
  }

  // ---------------------------------------------------------------------------
  // The engine

  /** The engine stays valid while the board it works on stays valid and
      nothing of its own changes. */
  twostate lemma MotorIntacto(m: MotorInferencia)
    requires old(m.Valid()) && m.grafo.Valid() && unchanged(m) && forall i :: 0 <= i < |m.reglas| ==> unchanged(m.reglas[i])
    ensures m.Valid()
  {
  }

  class MotorInferencia {
    const grafo: GrafoTablero
    const redBayesiana: RedBayesiana
    var reglas: seq<ReglaInferencia>
    var historialInferencias: seq<ResultadoInferencia>
    var movimientosTotales: nat

    ghost predicate Valid()
      reads this, grafo, reglas
    {
      grafo.Valid() && redBayesiana.grafo == grafo &&
      ReglasDe(reglas) == Creadas &&
      (forall i :: 0 <= i < |reglas| ==> reglas[i].Valid()) &&
      movimientosTotales == |historialInferencias| &&
      forall r :: r in historialInferencias ==> r.exito && r.certeza > 0.0
    }

    /** Creates the four rules and sorts them by priority, which leaves them
        in creation order. */
    constructor (grafo: GrafoTablero)
      requires grafo.Valid()
      ensures Valid() && this.grafo == grafo && fresh(redBayesiana) && redBayesiana.cache == map[]
      ensures historialInferencias == []
      ensures forall i :: 0 <= i < |reglas| ==>
        fresh(reglas[i]) && reglas[i].aplicacionesTotales == 0 && reglas[i].aplicacionesExitosas == 0
    {
      this.grafo := grafo;
      redBayesiana := new RedBayesiana(grafo);
      var creadas := CrearReglas();
      OrdenadaFija(creadas);
      reglas := OrdenarPorPrioridad(creadas);
      historialInferencias := [];
      movimientosTotales := 0;
      new;
      assert reglas == creadas;
    }

    /** The four rules in creation order, each fresh with no attempt
        recorded; their priorities are already in order. */
    static method CrearReglas() returns (rs: seq<ReglaInferencia>)
      ensures ReglasDe(rs) == Creadas && PorPrioridad(rs)
      ensures forall i :: 0 <= i < |rs| ==>
        fresh(rs[i]) && rs[i].Valid() && rs[i].aplicacionesTotales == 0 && rs[i].aplicacionesExitosas == 0
    {
      var r1 := new ReglaInferencia(MinasCompletas);
      var r2 := new ReglaInferencia(Saturacion);
      var r3 := new ReglaInferencia(Subconjunto);
      var r4 := new ReglaInferencia(Patron121);
      rs := [r1, r2, r3, r4];
      assert r1.prioridad == 1 && r2.prioridad == 1 && r3.prioridad == 2 && r4.prioridad == 3;
      assert ReglasDe(rs) == [r1.regla, r2.regla, r3.regla, r4.regla];
    }

    /** Appends an accepted inference to the history and empties the cache. */
    method RegistrarInferencia(r: ResultadoInferencia)
      requires Valid() && r.exito && r.certeza > 0.0
      modifies this, redBayesiana
      ensures Valid() && reglas == old(reglas)
      ensures historialInferencias == old(historialInferencias) + [r]
      ensures movimientosTotales == old(movimientosTotales) + 1
      ensures redBayesiana.cache == map[]
    {
      historialInferencias := historialInferencias + [r];
      movimientosTotales := movimientosTotales + 1;
      redBayesiana.LimpiarCache();
    }

    /** Tries the rules `rs` of kind `fase` on node `x` in list order and
        stops at the first accepted result. Only rules of that kind that
        apply to the node run, so only their counters move. */
    static method ProbarReglas(rs: seq<ReglaInferencia>, t: Tablero, fase: TipoInferencia, x: Coordenada)
      returns (r: Option<ResultadoInferencia>)
      requires Bien(t) && EnRango(t, x)
      requires forall i :: 0 <= i < |rs| ==> rs[i].Valid()
      requires forall i, j :: 0 <= i < j < |rs| ==> rs[i] != rs[j]
      modifies rs
      ensures forall i :: 0 <= i < |rs| ==> rs[i].Valid()
      ensures r == EnNodo(t, fase, ReglasDe(rs), x)
      ensures forall i :: 0 <= i < |rs| && !(Categoria(rs[i].regla) == fase && EsAplicable(rs[i].regla, t, x)) ==>
        unchanged(rs[i])
    {
      ghost var os := Intentos(t, fase, ReglasDe(rs), x);
      var j := 0;
      while j < |rs|
        invariant 0 <= j <= |rs|
        invariant forall i :: 0 <= i < |rs| ==> rs[i].Valid()
        invariant Primera(os, 0) == Primera(os, j)
        invariant forall i :: 0 <= i < |rs| && !(Categoria(rs[i].regla) == fase && EsAplicable(rs[i].regla, t, x)) ==>
          unchanged(rs[i])
      {
        var o := ProbarRegla(rs[j], t, fase, x);
        if o.Some? {
          return o;
        }
        j := j + 1;
      }
      return None;
    }

    /** One rule on node `x`: it runs, and updates its counters, only when it
        is of kind `fase` and applies to the node. */
    static method ProbarRegla(regla: ReglaInferencia, t: Tablero, fase: TipoInferencia, x: Coordenada)
      returns (o: Option<ResultadoInferencia>)
      requires Bien(t) && EnRango(t, x) && regla.Valid()
      modifies regla
      ensures regla.Valid() && o == Intento(t, fase, regla.regla, x)
      ensures !(Categoria(regla.regla) == fase && EsAplicable(regla.regla, t, x)) ==> unchanged(regla)
      ensures Contado(regla.regla, t, fase, x, old(regla.aplicacionesTotales), old(regla.aplicacionesExitosas),
                      regla.aplicacionesTotales, regla.aplicacionesExitosas)
    {
      if regla.tipo == fase && EsAplicable(regla.regla, t, x) {
        var res := regla.Aplicar(t, x);
        if Aceptado(fase, res) {
          return Some(res);
        }
      }
      return None;
    }

    /** A rule phase: scans the revealed nodes in row-major order and records
        the first accepted result. */
    method EjecutarFase(fase: TipoInferencia) returns (r: Option<ResultadoInferencia>)
      requires Valid()
      modifies this, redBayesiana, reglas
      ensures Valid() && reglas == old(reglas)
      ensures r == Fase(grafo.Vista(), fase, Creadas)
      ensures historialInferencias == old(historialInferencias) + (if r.Some? then [r.value] else [])
      ensures redBayesiana.cache == if r.Some? then map[] else old(redBayesiana.cache)
      ensures forall i :: 0 <= i < |reglas| && Categoria(reglas[i].regla) != fase ==> unchanged(reglas[i])
    {
      r := BuscarEnFase(fase);
      if r.Some? {
        RegistrarInferencia(r.value);
      }
    }

    /** The scan of a rule phase, before anything is recorded. */
    method BuscarEnFase(fase: TipoInferencia) returns (r: Option<ResultadoInferencia>)
      requires Valid()
      modifies reglas
      ensures Valid() && r == Fase(grafo.Vista(), fase, Creadas)
      ensures r.Some? ==> r.value.exito && r.value.certeza > 0.0
      ensures forall i :: 0 <= i < |reglas| && Categoria(reglas[i].regla) != fase ==> unchanged(reglas[i])
    {
      var t := grafo.Vista();
      ReglasDistintas(reglas);
      r := ProbarNodos(reglas, t, fase, Revelados(t));
    }

    /** Scans the nodes `xs` in order and stops at the first one where some
        rule of kind `fase` is accepted. */
    static method ProbarNodos(rs: seq<ReglaInferencia>, t: Tablero, fase: TipoInferencia, xs: seq<Coordenada>)
      returns (r: Option<ResultadoInferencia>)
      requires Bien(t) && TodosEnRango(t, xs)
      requires forall i :: 0 <= i < |rs| ==> rs[i].Valid()
      requires forall i, j :: 0 <= i < j < |rs| ==> rs[i] != rs[j]
      modifies rs
      ensures forall i :: 0 <= i < |rs| ==> rs[i].Valid()
      ensures r == Primero(EnNodos(t, fase, ReglasDe(rs), xs))
      ensures r.Some? ==> r.value.exito && r.value.certeza > 0.0
      ensures forall i :: 0 <= i < |rs| && Categoria(rs[i].regla) != fase ==> unchanged(rs[i])
    {
      ghost var os := EnNodos(t, fase, ReglasDe(rs), xs);
      var i := 0;
      while i < |xs|
        invariant 0 <= i <= |xs|
        invariant forall i :: 0 <= i < |rs| ==> rs[i].Valid()
        invariant Primera(os, 0) == Primera(os, i)
        invariant forall i :: 0 <= i < |rs| && Categoria(rs[i].regla) != fase ==> unchanged(rs[i])
      {
        r := ProbarReglas(rs, t, fase, xs[i]);
        if r.Some? {
          EnNodoExitoso(t, fase, ReglasDe(rs), xs[i]);
          return;
        }
        i := i + 1;
      }
      return None;
    }

    /** The network phase: asks the network for its best cell and acts on it
        as `DecisionBayesiana` says, recording what it decides. */
    method FaseRedBayesiana() returns (r: Option<ResultadoInferencia>)
      requires Valid()
      modifies this, redBayesiana, grafo
      ensures Valid() && reglas == old(reglas) && grafo.Vista() == old(grafo.Vista())
      ensures r == DecisionBayesiana(MejorMovimiento(grafo.Vista(), old(redBayesiana.cache)).0,
                                     MejorMovimiento(grafo.Vista(), old(redBayesiana.cache)).1)
      ensures historialInferencias == old(historialInferencias) + (if r.Some? then [r.value] else [])
      ensures var e := RecorridoTotal(grafo.Vista(), old(redBayesiana.cache), old(grafo.probabilidades));
        grafo.probabilidades == e.probs && redBayesiana.cache == if r.Some? then map[] else e.cache
    {
      var mejor, probabilidad := redBayesiana.ObtenerMejorMovimiento();
      MotorIntacto(this);
      r := DecisionBayesiana(mejor, probabilidad);
      if r.Some? {
        RegistrarInferencia(r.value);
      }
    }

    /** Deterministic rules, then patterns, then the network; the first
        phase that yields something decides. */
    method EjecutarCicloCompleto() returns (r: Option<ResultadoInferencia>)
      requires Valid()
      modifies this, redBayesiana, grafo, reglas
      ensures Valid() && reglas == old(reglas) && grafo.Vista() == old(grafo.Vista())
      ensures r == Ciclo(grafo.Vista(), old(redBayesiana.cache), Creadas)
      ensures historialInferencias == old(historialInferencias) + (if r.Some? then [r.value] else [])
      ensures var e := RecorridoTotal(grafo.Vista(), old(redBayesiana.cache), old(grafo.probabilidades));
        redBayesiana.cache == (if r.Some? then map[] else e.cache) &&
        grafo.probabilidades == if FasesReglas(grafo.Vista(), Creadas).Some? then old(grafo.probabilidades) else e.probs
    {
      ghost var t, c, p, h := grafo.Vista(), redBayesiana.cache, grafo.probabilidades, historialInferencias;
      CicloPorFases(t, c, Creadas);
      r := EjecutarFasesReglas();
      if r.None? {
        assert grafo.Vista() == t && redBayesiana.cache == c && grafo.probabilidades == p && historialInferencias == h;
        r := FaseRedBayesiana();
      }
    }

    /** The two rule phases of the cycle: the deterministic phase, then the
        pattern phase when it finds nothing. A result found is recorded, and
        the cache emptied; a miss leaves the history and the cache alone. */
    method EjecutarFasesReglas() returns (r: Option<ResultadoInferencia>)
      requires Valid()
      modifies this, redBayesiana, reglas
      ensures Valid() && reglas == old(reglas)
      ensures r == FasesReglas(grafo.Vista(), Creadas)
      ensures historialInferencias == old(historialInferencias) + (if r.Some? then [r.value] else [])
      ensures redBayesiana.cache == if r.Some? then map[] else old(redBayesiana.cache)
    {
      ghost var t, h, c := grafo.Vista(), historialInferencias, redBayesiana.cache;
      r := EjecutarFase(LOGICA_DETERMINISTA);
      if r.None? {
        assert grafo.Vista() == t && historialInferencias == h && redBayesiana.cache == c;
        r := EjecutarFase(PATRON_RECONOCIDO);
      }
    }

    /** The network's estimate for every hidden cell, keyed by cell. */
    method ObtenerMapaProbabilidades() returns (mapa: map<Coordenada, real>)
      requires Valid()
      modifies redBayesiana, grafo
      ensures Valid() && grafo.Vista() == old(grafo.Vista())
      ensures forall y :: y in mapa <==> EnRango(grafo.Vista(), y) && Celda(grafo.Vista(), y).estado == DESCONOCIDA
      ensures forall y :: y in mapa ==> mapa[y] == ProbabilidadNodo(grafo.Vista(), old(redBayesiana.cache), y)
      ensures var e := RecorridoTotal(grafo.Vista(), old(redBayesiana.cache), old(grafo.probabilidades));
        redBayesiana.cache == e.cache && grafo.probabilidades == e.probs
    {
      ghost var cache0 := redBayesiana.cache;
      var probabilidades := redBayesiana.CalcularMapaProbabilidades();
      mapa := PorCoordenada(probabilidades);
      MapaProbabilidadesCorrecto(grafo.Vista(), cache0);
    }

    /** Files each estimate of the list under its cell, in list order. */
    static method PorCoordenada(s: seq<ProbabilidadCasilla>) returns (mapa: map<Coordenada, real>)
      ensures mapa == MapaDe(s)
    {
      mapa := map[];
      var i := 0;
      while i < |s|
        invariant 0 <= i <= |s| && mapa == MapaDe(s[..i])
      {
        assert s[..i + 1][..i] == s[..i];
        mapa := mapa[s[i].coordenada := s[i].probabilidad];
        i := i + 1;
      }
      assert s[..i] == s;
    }

    /** Moves, mean certainty, uses per kind and success rate per rule. */
    method ObtenerEstadisticas() returns (e: EstadisticasMotor)
      requires Valid()
      ensures e.movimientosTotales == |historialInferencias|
      ensures e.tiposInferenciaUsados == ConteoTipos(historialInferencias)
      ensures e.certezaPromedio == Promedio(historialInferencias)
      ensures TasasDe(reglas, e.tasaExitoReglas)
    {
      var tipos: map<TipoInferencia, nat> := map[];
      var suma := 0.0;
      var i := 0;
      while i < |historialInferencias|
        invariant 0 <= i <= |historialInferencias|
        invariant tipos == ConteoTipos(historialInferencias[..i])
        invariant suma == SumaCertezas(historialInferencias[..i])
      {
        var inf := historialInferencias[i];
        assert historialInferencias[..i + 1][..i] == historialInferencias[..i];
        var actual := if inf.tipo in tipos then tipos[inf.tipo] else 0;
        tipos := tipos[inf.tipo := actual + 1];
        suma := suma + inf.certeza;
        i := i + 1;
      }
      assert historialInferencias[..i] == historialInferencias;
      var promedio := if |historialInferencias| > 0 then suma / |historialInferencias| as real else 0.0;
      ReglasDistintas(reglas);
      var tasas := Tasas(reglas);
      e := EstadisticasMotor(movimientosTotales, promedio, tipos, tasas);
    }

    /** One entry per rule: its name and its success rate. */
    static method Tasas(rs: seq<ReglaInferencia>) returns (m: map<string, real>)
      requires forall i :: 0 <= i < |rs| ==> rs[i].Valid()
      requires forall i, j :: 0 <= i < j < |rs| ==> rs[i].regla != rs[j].regla
      ensures TasasDe(rs, m)
    {
      m := map[];
      var j := 0;
      while j < |rs|
        invariant 0 <= j <= |rs|
        invariant TasasDe(rs[..j], m)
      {
        TasasPaso(rs, m, j);
        m := m[rs[j].nombre := rs[j].TasaExito()];
        j := j + 1;
      }
      assert rs[..j] == rs;
    }
  }
}
