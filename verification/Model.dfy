/** The reading type the server packages share. Times are integers. */
module Model {
  datatype Reading = Reading(device: int, sensor: string, value: real, observedAt: int)

  datatype Option<T> = None | Some(value: T)
}
