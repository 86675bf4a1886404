/** The value shapes shared by the generators, the Lambda handler and the UI computations. */
module Types {

  datatype Option<T> = None | Some(value: T)

  /** The five tracked RF metrics. */
  datatype MetricType = Rssi | Cqi | Rsrp | Rsrq | Snr

  /** The metrics in the order the generators and the statistics visit them. */
  const AllMetrics: seq<MetricType> := [Rssi, Cqi, Rsrp, Rsrq, Snr]

  /** The integer [min, max] range of one metric. */
  datatype Bounds = Bounds(min: int, max: int)

  /** A metric range table: the application and the Lambda handler each have one. */
  type RangeTable = MetricType -> Bounds

  datatype Vec3 = Vec3(x: real, y: real, z: real)

  /** An RGB triple, each channel nominally in [0, 1]. */
  datatype Rgb = Rgb(r: real, g: real, b: real)

  datatype Metrics = Metrics(rssi: real, cqi: real, rsrp: real, rsrq: real, snr: real)
  {
    /** `metrics[metric]` */
    function Get(m: MetricType): real
    {
      match m
      case Rssi => rssi
      case Cqi => cqi
      case Rsrp => rsrp
      case Rsrq => rsrq
      case Snr => snr
    }
  }

  /** A building; `position` is its centroid in metres. */
  datatype Building = Building(
    id: string,
    position: Vec3,
    width: real,
    height: real,
    depth: real,
    isTarget: bool,
    floorCount: int)

  datatype RFPoint = RFPoint(id: string, buildingId: string, position: Vec3, metrics: Metrics)

  /** The four quality buckets, worst first. */
  datatype Quality = Poor | Fair | Good | Excellent
  {
    function Rank(): nat
    {
      match this
      case Poor => 0
      case Fair => 1
      case Good => 2
      case Excellent => 3
    }
  }
}
