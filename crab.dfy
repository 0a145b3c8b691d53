/**
 * The crab record the beach owns. Only the two attributes the beach reads are
 * modelled: its name (not unique on a beach) and its speed (an unsigned integer).
 */
module Crabs {

  datatype Crab = Crab(name: string, speed: nat)

  /** The breeding operation of a crab: two parents and the offspring's name give a new crab. */
  type Breeder = (Crab, Crab, string) -> Crab
}
