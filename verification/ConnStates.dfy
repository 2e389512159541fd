/** The states a connection reports to the server. */
module ConnStates {
  datatype ConnState = New | Active | Idle | Closed
}
