/**
 * The distance sensor in front of each station (car_entry.py:68,
 * car_exit.py:61). The reading itself is an input of the model.
 */
module Sensor {
  /** Largest distance, in centimetres, that counts as a vehicle at the gate. */
  const PresenceDistance: int := 50

  predicate VehiclePresent(distance: int) {
    distance <= PresenceDistance
  }
}
