/** The two directions of synchronisation: tenant to super cluster, and back. */
module Directions {
  datatype Direction = Down | Up
}
