/** The random vehicle samplers of scenario.rs (`rand_car`, `rand_bike`). */
module Sampling {
  import opened Common
  import opened Oracle
  import opened DesSim

  // Vehicle length bounds, in centimetres.
  const MIN_CAR_LENGTH: nat := 450
  const MAX_CAR_LENGTH: nat := 650
  const MIN_BIKE_LENGTH: nat := 180
  const MAX_BIKE_LENGTH: nat := 220
  // The bike speed limit, in miles per hour.
  const BIKE_MAX_SPEED: nat := 10

  /** rand_car: a car of length in [MIN_CAR_LENGTH, MAX_CAR_LENGTH) with no speed limit. */
  function RandCar(rng: Rng): (r: (VehicleSpec, Rng))
    ensures r.0.vehicleType == Car && r.0.maxSpeed == None
    ensures MIN_CAR_LENGTH <= r.0.length < MAX_CAR_LENGTH
  {
    var (len, rng') := RandRange(rng, MIN_CAR_LENGTH, MAX_CAR_LENGTH);
    (VehicleSpec(Car, len.value, None), rng')
  }

  /** rand_bike: a bike (typed Bus by the source) of length in
      [MIN_BIKE_LENGTH, MAX_BIKE_LENGTH), limited to 10 mph. */
  function RandBike(rng: Rng): (r: (VehicleSpec, Rng))
    ensures r.0.vehicleType == Bus && r.0.maxSpeed == Some(BIKE_MAX_SPEED)
    ensures MIN_BIKE_LENGTH <= r.0.length < MAX_BIKE_LENGTH
  {
    var (len, rng') := RandRange(rng, MIN_BIKE_LENGTH, MAX_BIKE_LENGTH);
    (VehicleSpec(Bus, len.value, Some(BIKE_MAX_SPEED)), rng')
  }
}
