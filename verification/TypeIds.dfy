/** The identity of a component or resource type. */
module TypeIds {

  type TypeId = nat
}
