/** The authorization of a browser endpoint. */
module EndpointState {

  datatype Authorization = Stopped | Enabled | Revoked
}
