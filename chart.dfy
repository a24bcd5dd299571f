/** The chart record: what the generator writes and what the game reads. */
module Chart {

  /** One note of a chart file: onset time in ms, lane index and duration in ms. */
  datatype Note = Note(time: int, lane: int, duration: int)

  /** Number of lanes on the playfield and in generated charts. */
  const LANE_COUNT: int := 4
}
