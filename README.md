# Minesweeper solver core, modelled in Dafny

This project models the core of a Minesweeper solver. It has six parts:

- **Board graph (`GrafoTablero`).** A grid of nodes. Each node knows its state, whether it holds a mine, its label and its neighbour list.
- **Inference rules (`ReglaInferencia`).** Four rules, each with success counters:
  - complete mines;
  - saturation;
  - subset analysis;
  - the 1-2-1 pattern.
- **Probability network (`RedBayesiana`).** A probability of holding a mine for every hidden cell, kept in a cache. The network uses exact enumeration of mine assignments over at most 12 relevant cells, and a weighted local average above that.
- **Inference engine (`MotorInferencia`).** One cycle of three phases:
  1. deterministic rules;
  2. patterns;
  3. the probability network.

  It also keeps a history and statistics.
- **Game controller (`ControladorJuego`).** Owns the board and the engine, and has these operations:
  - start a game;
  - reveal with flood fill;
  - flag a cell;
  - check for a win;
  - manual moves;
  - the opening move;
  - one solver step.
- **Shared enumerations and records (`Tipos`).**

Each source file is one Dafny module: `Tipos` (tipos.dfy), `Grafo` (grafo.dfy), `Reglas` (reglas.dfy), `Bayesiano` (bayesiano.dfy), `Motor` (motor.dfy) and `Juego` (juego.dfy).

**Values and state.**
- A board is a value: `Tablero` holds the node grid `seq<seq<Nodo>>`, and a node is identified by its `Coordenada`.
- The rules and the probabilities are pure functions of that value.
- The objects that the source updates in place are classes with `modifies` clauses. These are the board, each rule's counters, the network's cache, the engine's history and the controller's counters.
- Each method is proved against a specification function on the board value. Each specification function has its own lemmas: neighbour lists exact and symmetric, rule results exact and targeting hidden cells, enumeration counts exact, probabilities bounded, the flood fill closed, counters exact, and so on.

**Notable behaviour of the code that the model reproduces.**
- **Subset rule.** `src/core/reglas.ts:134-138` only compares a node with neighbours whose hidden set contains the node's own hidden set, and takes the difference in that direction only (`Reglas.ProbarVecino`).
- **1-2-1 pattern.** `src/core/reglas.ts:218-222` takes as candidates the hidden neighbours adjacent to *either* of the two opposite "1" cells, including those adjacent to both (`Reglas.Candidatas`).
- **Global ratio.** `src/core/bayesiano.ts:47-48` caps the ratio at 1 but does not clamp it at 0, so with more flags than mines it is negative (`Bayesiano.BaseSignificado`).
- **Win check.** `src/core/juego.ts:241-250` compares with `>=` whatever the state, so a game already lost is set to won when the revealed count reaches the threshold (`Juego.ControladorJuego.VerificarEstadoJuego`).
- **Manual flag.** `src/core/juego.ts:267-276` leaves the first-move flag set; only a manual reveal clears it (`src/core/juego.ts:252-265`).
- **Flood fill.** `src/core/juego.ts:197-213` floods recursively, neighbour by neighbour, rather than with a worklist; the model keeps the same order (`Juego.PropagarLista`).
- **Probability cache.** `src/core/motor.ts:135-139` empties the cache only when the engine registers an inference; manual moves in `src/core/juego.ts:252-276` leave it as it is.

## Model

| member | source | states |
|---|---|---|
| Tipos.Nivel | src/core/tipos.ts:58-62 | Every difficulty preset has at least one mine and fewer mines than cells. |
| Grafo.VecinosHastaPaso | src/core/grafo.ts:73-84 | One step of the two offset loops appends the candidate cell exactly when it is not the centre and lies on the board. |
| Grafo.VecinosHastaExactos | src/core/grafo.ts:73-84 | After the first k offsets, the list holds exactly the on-board non-centre candidates among them. |
| Grafo.VecinosHastaOrdenados | src/core/grafo.ts:73-84 | The partial neighbour list is in row-major order, and its length is bounded by the offsets visited. |
| Grafo.VecinosExactos | src/core/grafo.ts:69-86 | A cell is in the neighbour list built for x if and only if it is on the board and is one of the eight cells around x. |
| Grafo.VecinosOrdenados | src/core/grafo.ts:69-86 | The neighbour list is in row-major order, has no repeats and has at most 8 entries. |
| Grafo.VecinosSimetricos | src/core/grafo.ts:69-86 | Adjacency is symmetric: y is a neighbour of x exactly when y is on the board and x is a neighbour of y. |
| Grafo.VecinosListados | src/core/grafo.ts:69-86 | The built list meets the neighbour-list invariant that every node of a well-formed board satisfies. |
| Grafo.VecinosDe | src/core/grafo.ts:10 | The stored neighbour list of a node of a well-formed board is exactly its adjacent on-board cells, row-major and without repeats. |
| Grafo.VecinosBien | src/core/grafo.ts:10 | The same facts stated about the node's own `vecinos` field. |
| Grafo.FiltrarEstado | src/core/grafo.ts:27-29 | Filtering by state keeps exactly the listed cells in that state, keeps the order, and never grows the list. |
| Grafo.FiltrarMina | src/core/grafo.ts:132 | Filtering by mine keeps exactly the listed cells that hold a mine. |
| Grafo.VecinosPorEstado | src/core/grafo.ts:27-29 | The neighbours in a given state are exactly the adjacent on-board cells in that state, in row-major order, at most 8. |
| Grafo.ObtenerNodo | src/core/grafo.ts:89-94 | Nothing exactly when the coordinate is off the board; otherwise the node stored at that coordinate. |
| Grafo.CoordenadasHastaMiembros | src/core/grafo.ts:96-98 | The first k flattened rows contain exactly the cells of those rows. |
| Grafo.CoordenadasHastaOrden | src/core/grafo.ts:96-98 | The flattened rows are in row-major order. |
| Grafo.CoordenadasHastaLongitud | src/core/grafo.ts:96-98 | k flattened rows of a given width contain k times that width cells. |
| Grafo.TodasCoordenadas | src/core/grafo.ts:96-98 | The flat node list has every cell of the board exactly once, in row-major order, rows times columns long. |
| Grafo.ContarCambio | src/core/juego.ts:183-185 | Changing the state of one cell changes the count of any state by exactly that cell's contribution. |
| Grafo.CuentaCambio | src/core/juego.ts:183-185 | The same accounting over any duplicate-free list of cells. |
| Grafo.MinasAColocar | src/core/grafo.ts:122 | The number of mines placed never exceeds the number of cells, and equals the request when the request is smaller and non-negative. |
| Grafo.CuentaMinasColocadas | src/core/grafo.ts:117-124 | When the mined cells are exactly the first k of a duplicate-free order, exactly k cells hold a mine. |
| Grafo.MinadoCompleto | src/core/grafo.ts:122-124 | After the placement loop, a cell holds a mine exactly when it did before or is among the chosen cells. States, neighbours and labels are unchanged. |
| Grafo.EtiquetadoPaso | src/core/grafo.ts:131-133 | Labelling one more non-mine node with its mined-neighbour count extends the labelling invariant. |
| Grafo.EtiquetadoCompleto | src/core/grafo.ts:129-135 | Once every node is visited, every non-mine node's label is the number of its neighbours that hold a mine; mined nodes are untouched. |
| Grafo.TableroInicialBien | src/core/grafo.ts:59-87 | The node grid built from initial nodes is a well-formed board: right shape, right coordinates, exact neighbour lists. |
| Grafo.GrafoTablero.ConectarVecinos | src/core/grafo.ts:73-84 | The loop's neighbour list equals the list whose exactness, order and symmetry the lemmas above establish. |
| Grafo.GrafoTablero.CrearFila | src/core/grafo.ts:62-65 | A row of fresh nodes for every column, each at its own coordinate. |
| Grafo.GrafoTablero.constructor | src/core/grafo.ts:51-87 | A well-formed board of the given size with no mines, every node hidden, unmined, labelled 0 and wired to its neighbours. |
| Grafo.GrafoTablero.MinarNodo | src/core/grafo.ts:123 | Mining one more cell extends the placement invariant, and changes nothing else. |
| Grafo.GrafoTablero.ColocarMinas | src/core/grafo.ts:117-127 | Records the requested mine total. Mines the first min(request, cells) cells of the shuffled order. Leaves states and neighbours as they were. Labels every non-mine node correctly. |
| Grafo.GrafoTablero.EtiquetarNodo | src/core/grafo.ts:131-133 | Labelling one node extends the labelling invariant and keeps the board well formed. |
| Grafo.GrafoTablero.CalcularNumerosAdyacentes | src/core/grafo.ts:129-135 | Every non-mine node's label becomes its mined-neighbour count; nothing else changes. |
| Grafo.GrafoTablero.ObtenerNodosFrontera | src/core/grafo.ts:100-115 | Exactly the hidden cells with at least one revealed neighbour, in row-major order. |
| Grafo.GrafoTablero.FijarProbabilidad | src/core/bayesiano.ts:145 | Stores the probability of one node only; the board itself is unchanged. |
| Reglas.Desconocidos | src/core/grafo.ts:40-42 | The hidden neighbours of a node, row-major. Their number is the node's free-space count. |
| Reglas.AplicarMinasCompletas | src/core/reglas.ts:48-72 | Succeeds exactly when the flagged neighbours equal the label and some neighbour is hidden. It then reveals exactly the hidden neighbours, with certainty 1. Otherwise it is the silent failure. |
| Reglas.AplicarSaturacion | src/core/reglas.ts:84-108 | Succeeds exactly when the remaining mines equal the number of hidden neighbours and that number is positive. It then flags exactly the hidden neighbours, with certainty 1. Otherwise it is the silent failure. |
| Reglas.MinasCompletasSaturacionExcluyentes | src/core/reglas.ts:48-108 | The two deterministic rules never both fire on the same node. |
| Reglas.SinOcultosNoDispara | src/core/reglas.ts:48-108 | With no hidden neighbour, neither rule fires, even when the label equals the flag count. |
| Reglas.Diferencia | src/core/reglas.ts:137 | The difference holds exactly the cells of the first list not in the second, and keeps row-major order. |
| Reglas.DiferenciaLongitud | src/core/reglas.ts:134-137 | For an included sorted list, the sizes differ exactly when the difference is non-empty, and the difference has the size gap as its length. |
| Reglas.ProbarVecino | src/core/reglas.ts:129-175 | A neighbour's conclusion, when there is one, is a deterministic success. |
| Reglas.ProbarVecinoCorrecto | src/core/reglas.ts:129-175 | A neighbour yields a conclusion exactly under these conditions: it is revealed and informative; the node's hidden set is strictly inside its own; and the mine difference equals either the size of the extra set or zero. The conclusion flags the extra cells in the first case, and reveals them in the second, with certainty 1. |
| Reglas.PrimerVecino | src/core/reglas.ts:128-176 | The scan stops at the first neighbour yielding a conclusion; no earlier one yields any. |
| Reglas.VecinoOculto | src/core/reglas.ts:141-144 | A neighbour's conclusion targets hidden cells only, with certainty 1. |
| Reglas.AplicarSubconjunto | src/core/reglas.ts:120-180 | Fails silently without hidden neighbours. It succeeds exactly when some neighbour yields a conclusion, and then returns the conclusion of the first such neighbour in list order. Its targets are hidden and its certainty is 1. |
| Reglas.Candidatas | src/core/reglas.ts:212-224 | The candidates are exactly these neighbours: hidden; not one of the two "1" cells; adjacent to either of them. Neighbour order is kept. |
| Reglas.CandidatasEje | src/core/reglas.ts:212-224 | The same characterisation on the node's own neighbour list, row-major. |
| Reglas.CandidatasEjesRectos | src/core/reglas.ts:212-224 | On a vertical or horizontal axis every hidden neighbour other than the two "1" cells is a candidate. |
| Reglas.CandidatasOrden | src/core/reglas.ts:226-230 | The second candidate is preceded only by the first. |
| Reglas.ProbarEje | src/core/reglas.ts:200-243 | An axis's conclusion, when there is one, is a pattern success. |
| Reglas.ProbarEjeCorrecto | src/core/reglas.ts:200-243 | An axis fires exactly when four things hold: both opposite cells are on the board; both are revealed; both are labelled 1; there are at least two candidates. It then flags the first two candidates in row-major order with certainty 0.95. |
| Reglas.EjeOculto | src/core/reglas.ts:212-230 | An axis's conclusion targets hidden cells only. |
| Reglas.PrimerEje | src/core/reglas.ts:200-244 | The axis scan stops at the first axis that fires. |
| Reglas.AplicarPatron121 | src/core/reglas.ts:192-248 | Succeeds exactly when some axis fires, and then returns the first such axis's conclusion. Otherwise it is the silent pattern failure. Targets are hidden. |
| Reglas.AplicarRegla | src/core/reglas.ts:27 | A rule's result carries its category. A failure is the silent failure. A success targets hidden cells, with certainty 1 except for the pattern rule. |
| Reglas.EvaluarSubconjunto | src/core/reglas.ts:128-176 | The neighbour loop returns the subset rule's result. |
| Reglas.EvaluarPatron121 | src/core/reglas.ts:200-244 | The axis loop returns the pattern rule's result. |
| Reglas.ReglaInferencia.constructor | src/core/reglas.ts:13-24 | A rule with its name, priority and category, and both counters at 0. |
| Reglas.ReglaInferencia.RegistrarAplicacion | src/core/reglas.ts:29-32 | Counts one attempt, and one success when it succeeded; successes never exceed attempts. |
| Reglas.ReglaInferencia.TasaExito | src/core/reglas.ts:34-36 | 0 without attempts; otherwise the ratio of successes to attempts, which lies in [0, 1]. |
| Reglas.ReglaInferencia.Aplicar | src/core/reglas.ts:39-248 | Returns the rule's result. Counts the attempt, except for the subset rule on a node with no hidden neighbour. Counts a success exactly when the result succeeds. |
| Bayesiano.VecinosInformativos | src/core/bayesiano.ts:27-29 | Exactly the adjacent cells that are revealed and labelled above 0. |
| Bayesiano.ProbabilidadBase | src/core/bayesiano.ts:40-49 | The global ratio is 0 without hidden cells and never exceeds 1. |
| Bayesiano.RazonAcotada | src/core/bayesiano.ts:45-48 | The capped ratio is 0 without hidden cells and at most 1. It is non-negative when mines remain and negative when over-flagged. Below the cap it is remaining mines over hidden cells. |
| Bayesiano.BaseSignificado | src/core/bayesiano.ts:40-49 | The global ratio is non-negative when no more cells are flagged than there are mines, and negative otherwise when cells remain hidden. |
| Bayesiano.RelevantesHastaMiembro | src/core/bayesiano.ts:54-60 | After k informative neighbours, the relevant list holds the target and the hidden neighbours of those k. |
| Bayesiano.Relevantes | src/core/bayesiano.ts:52-62 | The relevant cells are the target, first, and every hidden neighbour of an informative neighbour, without repeats. |
| Bayesiano.ConfigHastaMiembros | src/core/bayesiano.ts:76-80 | After the first i bits, the assignment holds exactly the listed cells whose bit is set. |
| Bayesiano.ConfigHastaCompleta | src/core/bayesiano.ts:76-80 | Scanning all bits yields the assignment of the mask. |
| Bayesiano.ObjetivoEnMascarasImpares | src/core/bayesiano.ts:76-86 | The target, listed first, is mined exactly in the odd masks. |
| Bayesiano.MinasEnConfigCuenta | src/core/bayesiano.ts:102 | Over a neighbour list without repeats, the count of mined neighbours is the number of listed cells that the assignment mines. |
| Bayesiano.MascarasCubren | src/core/bayesiano.ts:71-80 | Every assignment of the listed cells is the assignment of some mask below `2^n`: the enumeration misses none. |
| Bayesiano.MascarasDistintas | src/core/bayesiano.ts:71-80 | Over a list without repeats, different masks below `2^n` give different assignments: the enumeration counts none twice. |
| Bayesiano.CodigoBits | src/core/bayesiano.ts:77 | Bit `i` of the mask built for an assignment is set exactly when the `i`-th listed cell is in it. |
| Bayesiano.BitDistinto | src/core/bayesiano.ts:73-77 | Two different masks below `2^n` differ in one of the bits `0..n-1` that the loop tests. |
| Bayesiano.Restricciones | src/core/bayesiano.ts:99-104 | One constraint per informative neighbour: its label, its flagged count and its neighbour list. |
| Bayesiano.ValidasPaso | src/core/bayesiano.ts:82-84 | One more mask adds one to the valid count exactly when its assignment meets every constraint. |
| Bayesiano.ObjetivoPaso | src/core/bayesiano.ts:85-87 | One more mask adds one to the target count exactly when it is valid and mines the target. |
| Bayesiano.ObjetivoAcotado | src/core/bayesiano.ts:82-88 | Valid assignments mining the target never outnumber valid assignments. |
| Bayesiano.ProporcionExacta | src/core/bayesiano.ts:91-95 | With no valid assignment, the global ratio. Otherwise a probability in [0, 1]: it is 0 exactly when no valid assignment mines the target, and 1 exactly when every valid assignment does. |
| Bayesiano.Peso | src/core/bayesiano.ts:123 | Every weight is positive. |
| Bayesiano.Terminos | src/core/bayesiano.ts:117-128 | One positive-weight term per informative neighbour with free space, carrying that neighbour's local ratio; there is none exactly when no neighbour has free space. |
| Bayesiano.TerminosAgregar | src/core/bayesiano.ts:117-128 | Each loop iteration appends a term exactly when that neighbour has free space. |
| Bayesiano.SumaPesosPositiva | src/core/bayesiano.ts:135 | The sum of weights is non-negative, and positive when there is a term. |
| Bayesiano.SumasEntre | src/core/bayesiano.ts:134-135 | The weighted sum lies between the smallest and the largest ratio times the sum of weights. |
| Bayesiano.MediaEntre | src/core/bayesiano.ts:134-137 | The weighted average lies between the smallest and largest local ratios. |
| Bayesiano.AproximadaEntreExtremos | src/core/bayesiano.ts:113-138 | The approximation lies between the least and greatest local ratio of the informative neighbours. |
| Bayesiano.CacheEstable | src/core/bayesiano.ts:22-25 | A cached value is returned again while the cell stays hidden, whatever else changed on the board. |
| Bayesiano.CacheCrece | src/core/bayesiano.ts:22-37 | Computing a cell's value keeps every cached entry. It adds at most that cell, with its computed value. |
| Bayesiano.ProbabilidadNodoLocal | src/core/bayesiano.ts:18-38 | A cell's value depends only on the cache entry for that cell. |
| Bayesiano.Ocultas | src/core/bayesiano.ts:143-144 | Exactly the hidden cells, in row-major order. |
| Bayesiano.Valores | src/core/bayesiano.ts:143-144 | A value is computed for exactly the hidden cells. |
| Bayesiano.Insertar | src/core/bayesiano.ts:155 | Insertion adds exactly the inserted entry. |
| Bayesiano.InsertarOrdenada | src/core/bayesiano.ts:155 | Insertion into an ascending list keeps it ascending. |
| Bayesiano.Ordenar | src/core/bayesiano.ts:155 | The sorted map is a permutation of the map, ascending by probability. |
| Bayesiano.InsertarEstable | src/core/bayesiano.ts:155 | Insertion keeps the relative order of entries of equal probability. |
| Bayesiano.OrdenarEstable | src/core/bayesiano.ts:155 | Sorting is stable: entries of equal probability keep their order. |
| Bayesiano.CabezaMinima | src/core/bayesiano.ts:165 | The head of the sorted map is an entry of least probability. |
| Bayesiano.PrimeroOrdenado | src/core/bayesiano.ts:155-165 | On a row-major map, the head is also row-major first among entries of least probability. |
| Bayesiano.CabezaPrimera | src/core/bayesiano.ts:155-165 | No entry of the head's probability comes before the head in row-major order. |
| Bayesiano.ValorarEntradas | src/core/bayesiano.ts:143-152 | Valuing a row-major list of cells gives one entry per cell, with its value, in that order. |
| Bayesiano.MapaEntradas | src/core/bayesiano.ts:140-156 | The unsorted map has, in row-major order, exactly one entry per hidden cell, carrying that cell's probability. It is empty exactly when no cell is hidden. |
| Bayesiano.MejorDelMapa | src/core/bayesiano.ts:158-171 | The head of the sorted map is a hidden cell of least probability, and the first such cell in row-major order. |
| Bayesiano.MejorMovimientoCorrecto | src/core/bayesiano.ts:158-171 | There is no best move exactly when no cell is hidden, and then the probability is 0. Otherwise the best move is the row-major first hidden cell of least probability, with that probability. |
| Bayesiano.Visitar | src/core/bayesiano.ts:144-152 | Visiting a cell keeps the probability grid well shaped. |
| Bayesiano.Recorrer | src/core/bayesiano.ts:143-153 | Visiting a list of cells keeps the probability grid well shaped. |
| Bayesiano.VisitarLista | src/core/bayesiano.ts:144-150 | Visiting a new cell extends the map with its entry exactly when the cell is hidden. |
| Bayesiano.VisitarCache | src/core/bayesiano.ts:144-145 | Visiting a new cell extends the cache invariant of the traversal. |
| Bayesiano.VisitarProbs | src/core/bayesiano.ts:144-146 | Visiting a new cell stores its value on the node exactly when it is hidden. |
| Bayesiano.RecorrerCache | src/core/bayesiano.ts:143-153 | Over a duplicate-free list, the traversal's cache meets the cache invariant. |
| Bayesiano.RecorrerLista | src/core/bayesiano.ts:143-153 | Over a duplicate-free list, the traversal's map meets the map invariant. |
| Bayesiano.RecorrerProbs | src/core/bayesiano.ts:143-153 | Over a duplicate-free list, the stored values meet the grid invariant. |
| Bayesiano.RecorridoCompleto | src/core/bayesiano.ts:140-156 | After the full traversal: the map is the unsorted probability map; the old cache is kept and only hidden cells are added, with their values; each hidden node stores its value and every other node keeps its old one. |
| Bayesiano.RedBayesiana.constructor | src/core/bayesiano.ts:13-16 | A network on the given board with an empty cache. |
| Bayesiano.RedBayesiana.CalcularProbabilidadBayesiana | src/core/bayesiano.ts:18-38 | Returns the cell's value given the old cache: 1 for flagged, 0 for revealed, the cached value, the global ratio, or the constraint estimate. Only a constraint estimate is stored. |
| Bayesiano.RedBayesiana.NodosRelevantes | src/core/bayesiano.ts:52-62 | Builds the relevant list. |
| Bayesiano.RedBayesiana.AgregarDesconocidos | src/core/bayesiano.ts:55-59 | Adds the hidden cells of one neighbour list that are not already present. |
| Bayesiano.RedBayesiana.Configurar | src/core/bayesiano.ts:74-80 | Builds the assignment of a mask. |
| Bayesiano.RedBayesiana.Satisfacen | src/core/bayesiano.ts:99-110 | True exactly when the assignment meets every constraint. |
| Bayesiano.RedBayesiana.VerificaRestricciones | src/core/bayesiano.ts:98-111 | True exactly when every informative neighbour's flagged plus assigned mines equal its label. |
| Bayesiano.RedBayesiana.ContarMascara | src/core/bayesiano.ts:74-88 | One iteration of the enumeration keeps the valid and target counts exact. |
| Bayesiano.RedBayesiana.ContarConfiguraciones | src/core/bayesiano.ts:68-89 | The counts over all masks are the exact number of valid assignments, and of valid assignments mining the target. |
| Bayesiano.RedBayesiana.CalcularProbabilidadCSP | src/core/bayesiano.ts:51-96 | The constraint estimate: the approximation above 12 relevant cells, the exact proportion otherwise. |
| Bayesiano.RedBayesiana.ReunirTerminos | src/core/bayesiano.ts:117-128 | Collects the local-ratio terms. |
| Bayesiano.RedBayesiana.Sumar | src/core/bayesiano.ts:134-135 | Computes the weighted sum and the sum of weights. |
| Bayesiano.RedBayesiana.CalcularProbabilidadAproximada | src/core/bayesiano.ts:113-138 | The weighted average of the local ratios, or the global ratio without terms; its bounds are `AproximadaEntreExtremos`. |
| Bayesiano.RedBayesiana.VisitarCelda | src/core/bayesiano.ts:144-152 | One loop iteration performs one traversal step; the board is unchanged. |
| Bayesiano.RedBayesiana.CalcularMapaProbabilidades | src/core/bayesiano.ts:140-156 | Returns the sorted probability map of the hidden cells, computed from the old cache. Leaves the board's nodes unchanged. Leaves cache and stored values as the full traversal states. |
| Bayesiano.RedBayesiana.ObtenerMejorMovimiento | src/core/bayesiano.ts:158-171 | Returns the best move and its probability, whose meaning is `MejorMovimientoCorrecto`. |
| Bayesiano.RedBayesiana.LimpiarCache | src/core/bayesiano.ts:173-175 | Empties the cache. |
| Motor.InsertarReglaPermuta | src/core/motor.ts:34 | Inserting a rule adds exactly that rule. |
| Motor.InsertarReglaOrdenada | src/core/motor.ts:34 | Insertion keeps the rules in priority order. |
| Motor.OrdenarPorPrioridadCorrecto | src/core/motor.ts:34 | The priority sort returns a permutation of the rules in non-decreasing priority. |
| Motor.OrdenadaFija | src/core/motor.ts:27-34 | A list already in priority order is left as it is, so the created rules keep their creation order. |
| Motor.Primera | src/core/motor.ts:60-73 | The position of the first outcome present, and no earlier one present. |
| Motor.Revelados | src/core/motor.ts:56-58 | Exactly the revealed cells, in row-major order. |
| Motor.EnNodoCorrecto | src/core/motor.ts:61-72 | A node yields nothing exactly when every rule's attempt on it fails; otherwise it yields the first accepted attempt in rule order. |
| Motor.IntentoAceptado | src/core/motor.ts:61-72 | An accepted attempt comes from a rule of the phase's kind that applies to the node. It is a success of that kind targeting hidden cells, with certainty at least 0.9 in the pattern phase. |
| Motor.EnNodoExitoso | src/core/motor.ts:61-72 | What a node yields succeeds with positive certainty. |
| Motor.FasePrimerNodo | src/core/motor.ts:55-76 | A phase yields the outcome of the first revealed node in row-major order that yields anything. |
| Motor.FaseExitosa | src/core/motor.ts:55-99 | What a rule phase yields is a success of the phase's kind, produced by an applicable rule of that kind on a revealed node. Its targets are hidden. |
| Motor.FaseVacia | src/core/motor.ts:55-99 | A rule phase yields nothing exactly when no rule of its kind is accepted on any revealed node. |
| Motor.DecisionBayesiana | src/core/motor.ts:101-133 | The network acts exactly when a best cell exists with probability below 0.5 or above 0.85. It reveals below 0.5, with certainty 1 minus p, and flags otherwise, with certainty p. |
| Motor.CicloPorFases | src/core/motor.ts:39-53 | The cycle is the rule phases' result when they yield one, and otherwise the network's decision on its best move. |
| Motor.CicloCorrecto | src/core/motor.ts:39-53 | The cycle yields a success with hidden targets and an action. The network acts only when both rule phases fail, and then on a hidden cell of least probability. The cycle yields nothing exactly when both rule phases fail and the network has no decision. |
| Motor.UsosAgregar | src/core/motor.ts:145-149 | Appending a result adds one use to its kind only. |
| Motor.ConteoUsos | src/core/motor.ts:145-149 | The use map has exactly the kinds that occur in the history, each with its number of occurrences. |
| Motor.UsosSuman | src/core/motor.ts:145-149 | The uses of the four kinds add up to the history's length. |
| Motor.SumaAcotada | src/core/motor.ts:145-150 | The certainty sum lies between the history's length times the least and greatest certainty. |
| Motor.PromedioAcotado | src/core/motor.ts:151-153 | The mean certainty of a non-empty history lies between its least and greatest certainty. |
| Motor.NombresDistintos | src/core/reglas.ts:39-186 | Different rules have different names. |
| Motor.CreadasDistintas | src/core/motor.ts:27-32 | The engine creates four different rules. |
| Motor.ReglasDistintas | src/core/motor.ts:27-32 | The engine's rule objects are distinct and hold distinct rules. |
| Motor.TasasAgregar | src/core/motor.ts:155-158 | Adding a rule with a fresh name to the rate map extends the rate invariant. |
| Motor.TasasPaso | src/core/motor.ts:155-158 | One iteration of the rate loop extends the rate invariant. |
| Motor.MapaDeEntradas | src/core/motor.ts:168-178 | Keying the entries by coordinate keeps one key per entry, each with an entry's probability. |
| Motor.MapaProbabilidadesCorrecto | src/core/motor.ts:168-178 | The keyed probability map has exactly the hidden cells as keys, each with its probability. |
| Motor.MotorInferencia.CrearReglas | src/core/motor.ts:27-32 | Creates the four rules in creation order, by priority, each fresh with both counters at 0. |
| Motor.MotorInferencia.constructor | src/core/motor.ts:23-37 | Creates a valid engine on the board with a fresh network, an empty cache and an empty history. The rules are the four created rules by priority, each fresh with both counters at 0. |
| Motor.MotorInferencia.RegistrarInferencia | src/core/motor.ts:135-139 | Appends the result to the history, counts one move and empties the cache. |
| Motor.MotorInferencia.ProbarRegla | src/core/motor.ts:62-70 | Returns one rule's attempt on a node. A rule of another kind, or one that does not apply to the node, is left untouched. Otherwise its attempt count grows by one exactly when the rule records the attempt, and its success count by one exactly when it succeeds. |
| Motor.MotorInferencia.ProbarReglas | src/core/motor.ts:61-72 | Returns what the node yields. Rules of other kinds, and rules that do not apply to the node, are left untouched. |
| Motor.MotorInferencia.ProbarNodos | src/core/motor.ts:60-73 | Returns the first outcome over the nodes, a success of positive certainty when present. |
| Motor.MotorInferencia.BuscarEnFase | src/core/motor.ts:55-99 | Returns the phase's result without recording it. |
| Motor.MotorInferencia.EjecutarFase | src/core/motor.ts:55-99 | Returns the phase's result. When present, it is recorded in the history and the cache is emptied; otherwise the cache is unchanged. |
| Motor.MotorInferencia.EjecutarFasesReglas | src/core/motor.ts:39-99 | Returns the deterministic phase's result, else the pattern phase's. When present, it is recorded and the cache is emptied; otherwise the history and the cache are unchanged. |
| Motor.MotorInferencia.FaseRedBayesiana | src/core/motor.ts:101-133 | Returns the network's decision on the best move computed from the old cache, recorded when present. The board is unchanged. The stored probabilities become those of the row-major traversal; the cache is emptied when a move is returned and is otherwise the traversal's cache. |
| Motor.MotorInferencia.EjecutarCicloCompleto | src/core/motor.ts:39-53 | Returns the cycle's result, whose meaning is `CicloCorrecto`. Records it when present. The board is unchanged. The cache is emptied on a result and is otherwise the traversal's cache. The stored probabilities are unchanged when a rule phase answers and are otherwise the traversal's. |
| Motor.MotorInferencia.PorCoordenada | src/core/motor.ts:171-175 | Keys the sorted entries by coordinate. |
| Motor.MotorInferencia.ObtenerMapaProbabilidades | src/core/motor.ts:168-178 | The keys are exactly the hidden cells, each with its probability from the old cache. The cache and the stored probabilities become those of the row-major traversal. |
| Motor.MotorInferencia.Tasas | src/core/motor.ts:155-158 | The rate map holds each rule's success rate under its name. |
| Motor.MotorInferencia.ObtenerEstadisticas | src/core/motor.ts:141-166 | The statistics hold the following: the move count equals the history's length; the kind counts and the mean certainty come from the history; the rate map matches the rules. |
| Juego.ContarConEstado | src/core/juego.ts:183-185 | Setting one cell's state changes the count of any state by exactly that cell's old and new contribution. |
| Juego.PropagarCelda | src/core/juego.ts:201-210 | Opening a neighbour keeps the board well formed. The hidden count drops by the number of cells opened. |
| Juego.PropagarLista | src/core/juego.ts:197-213 | The flood over a neighbour list keeps the board well formed. The hidden count drops by the number of cells opened. |
| Juego.PropagarPaso | src/core/juego.ts:203-210 | The flood over a list is the flood from its head followed by the flood over its tail. |
| Juego.DestapadoTransitivo | src/core/juego.ts:197-213 | Successive floods compose: only hidden non-mine cells are turned revealed. |
| Juego.CeldaDestapa | src/core/juego.ts:201-210 | Opening a neighbour changes only hidden non-mine cells, and only to revealed. |
| Juego.PropagarDestapa | src/core/juego.ts:197-213 | The flood changes only hidden non-mine cells, and only to revealed. |
| Juego.CeldaAlcance | src/core/juego.ts:201-210 | Every cell that opening a neighbour `v` of `o` changes is `v`, or is next to the end of a path of hidden zero cells that the flood revealed, which starts next to `o` with each cell next to the one before it. |
| Juego.PropagarAlcance | src/core/juego.ts:197-213 | Every cell that the flood over the neighbours of `o` changes is one of them, or is next to the end of a path of revealed hidden zero cells that starts next to `o`. |
| Juego.AlcanceCompuesto | src/core/juego.ts:203-210 | Path reach of the flood from the head, followed by path reach of the flood over the tail, is path reach over the whole list. |
| Juego.CadenaPersiste | src/core/juego.ts:203-210 | A path of opened zero cells stays one while later floods only reveal more cells. |
| Juego.CadenaAnterior | src/core/juego.ts:203-210 | A path opened by a later flood is a path of zero cells hidden at the start, since the cells it crosses were untouched before. |
| Juego.CadenaAnteponer | src/core/juego.ts:201-210 | An opened zero cell next to `o`, followed by a path starting next to it, is a path starting next to `o` with the same end. |
| Juego.AlcanceTrasCero | src/core/juego.ts:201-210 | A cell next to an opened zero cell `v`, or reached by a path from `v`, is reached by a path from any neighbour `o` of `v`. |
| Juego.CeldaCuenta | src/core/juego.ts:201-210 | The revealed count grows by exactly the number reported. |
| Juego.PropagarCuenta | src/core/juego.ts:197-213 | The revealed count grows by exactly the number of propagated cells reported. |
| Juego.CeldaCubre | src/core/juego.ts:201-210 | After opening a neighbour, it is no longer a hidden non-mine cell. |
| Juego.PropagarCubre | src/core/juego.ts:197-213 | After the flood, no listed neighbour is a hidden non-mine cell. |
| Juego.AbiertoPersiste | src/core/juego.ts:197-213 | A revealed zero cell whose hidden non-mine neighbours are all opened stays so after further flooding. |
| Juego.CeldaCierra | src/core/juego.ts:201-210 | Every zero cell the flood reveals has no hidden non-mine neighbour left. |
| Juego.PropagarCierra | src/core/juego.ts:197-213 | The flood is closed: every zero cell it reveals has no hidden non-mine neighbour left. |
| Juego.Abrir | src/core/juego.ts:183-193 | Revealing a cell keeps the board well formed. |
| Juego.AbrirCorrecto | src/core/juego.ts:183-193 | Revealing a non-revealed cell turns it revealed, and every other cell is unchanged or was hidden and mine-free. The revealed count grows by one plus the flood. The flood from a zero cell leaves it fully opened, and is closed. |
| Juego.AbrirAlcance | src/core/juego.ts:183-213 | Revealing `x` changes no other cell unless `x` is labelled 0; then every other changed cell is a neighbour of `x` or is next to the end of a path of hidden zero cells revealed by the flood, starting next to `x`, each next to the one before it. |
| Juego.RevelarEn | src/core/juego.ts:161-195 | A reveal keeps the board well formed, its size and its mine total. |
| Juego.RevelarEnCorrecto | src/core/juego.ts:161-195 | A reveal keeps the game coherent: the revealed count stays exact and no mine is open. It succeeds exactly on an on-board, non-revealed, mine-free cell. The game is lost exactly on an on-board, non-revealed mine. The flag count is unchanged. |
| Juego.MarcarEn | src/core/juego.ts:215-239 | A flag keeps the board well formed, its size and its mine total. |
| Juego.MarcarEnCorrecto | src/core/juego.ts:215-239 | A flag keeps the game coherent and its state. It succeeds exactly on an on-board hidden cell, and then counts one flag. |
| Juego.AplicarEn | src/core/juego.ts:134-159 | Applying an action keeps the board well formed, its size and its mine total. |
| Juego.AplicarPaso | src/core/juego.ts:140-155 | A losing reveal stops the application and reports failure; otherwise the rest of the cells follow. |
| Juego.AplicarEnCorrecto | src/core/juego.ts:134-159 | Applying keeps the game coherent. The state changes only to lost. On a game not already lost, it reports success exactly when the game is not lost, and then the state is unchanged. |
| Juego.PrimeraQue | src/core/juego.ts:87-88 | The first listed cell meeting the opening criterion; no earlier one meets it. |
| Juego.AperturaCorrecta | src/core/juego.ts:80-132 | The opening cell is on the board and mine-free. It is the row-major first mine-free cell with no mine around it when one exists. Otherwise it is a mine-free corner, and there is none only when no corner qualifies. |
| Juego.AperturaSegura | src/core/juego.ts:80-132 | The opening move keeps the game coherent, never loses it and never changes the flag count. |
| Juego.NingunaRevelada | src/core/juego.ts:32-42 | A board with no revealed cell has a revealed count of 0, so the reset counter is exact. |
| Juego.BuscarPrimera | src/core/juego.ts:87-103 | Finds the first cell meeting the criterion. |
| Juego.BuscarApertura | src/core/juego.ts:87-129 | Finds the opening cell and whether it has no mine around it. |
| Juego.NuevoTablero | src/core/juego.ts:33-34 | A fresh, valid board of the configured size and mine total. Every cell is hidden, the mines are at the first cells of the order, every label is right and the game is coherent. |
| Juego.ControladorJuego.constructor | src/core/juego.ts:24-30 | No game: no board or engine, not started, first move pending, all counters 0. |
| Juego.ControladorJuego.RevelarVecino | src/core/juego.ts:203-210 | Opens one neighbour and floods from it as the pure flood does, counting the revealed cells. |
| Juego.ControladorJuego.PropagarRevelacion | src/core/juego.ts:197-213 | The board becomes the pure flood over the cell's neighbours. Both the returned and the revealed count grow by the flood's count. |
| Juego.ControladorJuego.RevelarEnGrafo | src/core/juego.ts:166-194 | The game becomes the reveal of the cell, with its success. |
| Juego.ControladorJuego.RevelarCasilla | src/core/juego.ts:161-195 | Fails without a game, changing neither counter. Otherwise it is the reveal whose meaning is `RevelarEnCorrecto`, and the controller stays valid. The stored probabilities are unchanged. |
| Juego.ControladorJuego.MarcarEnGrafo | src/core/juego.ts:220-238 | The game becomes the flag of the cell, with its success. |
| Juego.ControladorJuego.MarcarMina | src/core/juego.ts:215-239 | Fails without a game, changing neither counter. Otherwise it is the flag whose meaning is `MarcarEnCorrecto`. The stored probabilities are unchanged. |
| Juego.ControladorJuego.VerificarEstadoJuego | src/core/juego.ts:241-250 | Sets the state to won exactly when the revealed count reaches the board's non-mine cell count. |
| Juego.ControladorJuego.RevelarManual | src/core/juego.ts:252-265 | Refused unless a game is in progress. Otherwise it clears the first-move flag, reveals the cell and checks for a win. |
| Juego.ControladorJuego.MarcarManual | src/core/juego.ts:267-276 | Refused unless a game is in progress; otherwise the flag. |
| Juego.ControladorJuego.IniciarJuego | src/core/juego.ts:32-42 | Starts a game in progress on a fresh board mined as configured, with a fresh engine. The first move is pending and every counter is 0. |
| Juego.ControladorJuego.AperturaEnGrafo | src/core/juego.ts:86-131 | Performs the opening move and reports it. The first-move flag is cleared exactly when an opening cell exists. |
| Juego.ControladorJuego.PrimerMovimientoSeguro | src/core/juego.ts:80-132 | The opening move on a valid controller. Its safety is `AperturaSegura`. |
| Juego.ControladorJuego.AplicarCasilla | src/core/juego.ts:141-155 | Applies the action to one cell, reporting whether it lost the game. |
| Juego.ControladorJuego.AplicarCasillas | src/core/juego.ts:140-156 | The loop applies the action to the cells in order, as `AplicarEn` states. |
| Juego.ControladorJuego.AplicarResultado | src/core/juego.ts:134-159 | Applies an inference's action. Its meaning is `AplicarEnCorrecto`, and the controller stays valid. |
| Juego.ControladorJuego.PasoInferido | src/core/juego.ts:53-77 | Runs the engine's cycle. Without a successful result, nothing changes and failure is reported. Otherwise it applies the result, counts the move, checks for a win and reports the result's kind, certainty and target count. The history gains the cycle's result when there is one; the cache and the stored probabilities end as the cycle leaves them. |
| Juego.ControladorJuego.EjecutarPasoIA | src/core/juego.ts:44-78 | Without a game in progress, nothing happens. While the first move is pending, it makes the opening move. In both cases the history, the cache and the stored probabilities are unchanged. Otherwise it takes one inference step, with the history, cache and probabilities as `PasoInferido` states. |

## Left out

- **Mine shuffle.** The random shuffle of the node list (grafo.ts:120) is an input: `orden`, a duplicate-free list of every coordinate. Randomness and the bias of sorting by a random comparator are not modelled.
- **Numbers.** IEEE-754 doubles are modelled as exact reals, and JavaScript numbers used as counters as unbounded integers. Rounding in the ratios and averages is not modelled. Board dimensions are natural numbers; the source's constructors accept any number, and negative or fractional sizes are not modelled.
- **Text.** Messages, reasons and the `"fila-columna"` string keys are not modelled. Cells are identified by their coordinate; the cache and the keyed probability map use coordinates as keys. `getId` is therefore not modelled.
- **Node identity.** Nodes are values addressed by coordinate, not shared objects. The neighbour lists hold coordinates, and node identity comparisons (`vecino === vecino1`) become coordinate equality.
- **Stored probability.** A node's `probabilidadMina` lives in a grid beside the nodes (`GrafoTablero.probabilidades`), so that storing a probability leaves the board value the rules read unchanged.
- **Abstract rule class.** The abstract class and its four subclasses are one class `ReglaInferencia` holding a `TipoRegla` tag; `esAplicable` and `aplicar` dispatch on the tag.
- **Sorts.** `Array.prototype.sort` with a numeric comparator is modelled as a stable insertion sort, the behaviour the language guarantees. For the rules, the sort is shown to leave the creation order unchanged.
- **Extracted methods.** Some loop bodies or early-return branches of a source function are separate methods, and each is proved against the same specification function:
  - `ContarMascara`, `VisitarCelda` and `ReunirTerminos` (enumeration, map and approximation loops);
  - `AplicarCasilla` and `AplicarCasillas` (result application);
  - `BuscarPrimera` and `BuscarApertura` (opening search);
  - the `*EnGrafo` methods;
  - `PasoInferido` (the step after the opening);
  - `NuevoTablero` (board creation at game start).
- Juego.ControladorJuego.IniciarJuego: the counters are reset in a different order from the source's field assignments. No observable difference.
- Juego.ControladorJuego.RevelarCasilla: revealing a flagged cell reveals it without decrementing the flag count, as the source does. `minasMarcadas` is therefore not proved equal to the number of flagged cells.
- Motor.MotorInferencia.ProbarReglas: the rule counters are stated to stay valid and to be unchanged for rules that are not of the phase's kind or do not apply to the node. Their exact values after the scan are stated per attempt by `ProbarRegla`, not across the scan.
- Motor.MotorInferencia.ProbarNodos: the same weaker statement of the rule counters across a scan of nodes.
- Motor.MotorInferencia.BuscarEnFase: the same weaker statement of the rule counters across a phase.
- Motor.MotorInferencia.EjecutarFase: the same weaker statement of the rule counters across a phase.
- Motor.MotorInferencia.EjecutarFasesReglas: the same weaker statement of the rule counters across both rule phases.
- Motor.MotorInferencia.EjecutarCicloCompleto: the rule counters after a cycle are stated only to stay valid.
- Juego.ControladorJuego.EjecutarPasoIA: the rule counters after a step are stated only through the engine's validity.
- Juego.ControladorJuego.PasoInferido: the same weaker statement of the rule counters.
- Juego.ControladorJuego.PrimerMovimientoSeguro: the branch that fails without a board is excluded by the precondition. The caller `EjecutarPasoIA` checks for a board first, so that branch is unreachable in the source as well.
- **Performance.** The exact enumeration's bound of 2^12 masks is modelled by the 12-cell threshold; its running time is not.
- **Outside the model.** The user interface, auto-play driver and any code outside the six core files are not part of this model.
