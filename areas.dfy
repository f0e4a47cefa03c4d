/** The areas of a crossdock, as the generator names them, and the points placed in them. */
module Areas {
  import opened Dicts

  /** `Storage(i)` is the area named "Estoque i" (i counted from 1); the others are
      "Docas entrada", "Picking" and "Docas saída". */
  datatype Area = Storage(index: nat) | InboundDocks | Picking | OutboundDocks

  /** A point of the layout plane. */
  datatype Point = Point(x: real, y: real)

  /** `coordenadas_por_area`: for each area, the point of each of its operations. */
  type AreaPoints = Dict<Area, Dict<int, Point>>
}
