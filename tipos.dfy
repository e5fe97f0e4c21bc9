/** Shared enumerations, records and difficulty presets of the solver. */
module Tipos {

  datatype Option<+T> = None | Some(value: T)

  /** The four states a cell can be in. */
  datatype EstadoCasilla = DESCONOCIDA | REVELADA | MARCADA | EXPLOSIONADA

  /** The kind of reasoning that produced an inference. */
  datatype TipoInferencia = LOGICA_DETERMINISTA | PATRON_RECONOCIDO | RED_BAYESIANA | HEURISTICA

  /** The action an inference recommends. */
  datatype AccionIA = REVELAR | MARCAR_MINA

  datatype Coordenada = Coordenada(fila: int, columna: int)

  datatype ConfiguracionJuego = ConfiguracionJuego(filas: nat, columnas: nat, minas: int)

  /** The result of one inference. The human-readable reason is not modelled;
      `accion` is optional exactly as in the record it models. */
  datatype ResultadoInferencia = ResultadoInferencia(
    exito: bool,
    accion: Option<AccionIA>,
    coordenadas: seq<Coordenada>,
    certeza: real,
    tipo: TipoInferencia)

  /** The failure result every rule returns: no action, no targets, certainty 0. */
  function Fallo(tipo: TipoInferencia): (r: ResultadoInferencia)
    ensures !r.exito && r.accion == None && r.coordenadas == [] && r.certeza == 0.0 && r.tipo == tipo
  {
    ResultadoInferencia(false, None, [], 0.0, tipo)
  }

  /** Engine statistics: moves, mean certainty, uses per inference kind and
      success rate per rule name. */
  datatype EstadisticasMotor = EstadisticasMotor(
    movimientosTotales: nat,
    certezaPromedio: real,
    tiposInferenciaUsados: map<TipoInferencia, nat>,
    tasaExitoReglas: map<string, real>)

  datatype ProbabilidadCasilla = ProbabilidadCasilla(coordenada: Coordenada, probabilidad: real)

  datatype NivelJuego = FACIL | MEDIO | DIFICIL

  /** The difficulty presets (rows, columns, mines). */
  function Nivel(n: NivelJuego): (c: ConfiguracionJuego)
    ensures 0 < c.minas < c.filas * c.columnas
  {
    match n
    case FACIL => ConfiguracionJuego(8, 8, 10)
    case MEDIO => ConfiguracionJuego(16, 16, 40)
    case DIFICIL => ConfiguracionJuego(16, 30, 99)
  }
}
