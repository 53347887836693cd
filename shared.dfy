/** Declarations shared by the provisioning steps (tools/infrasys/src/shared.rs). */
module Shared {
  /** The trust-document role a set of signing keys is added for: the root role itself,
      or the three publication roles (snapshot, targets, timestamp) taken together. */
  datatype KeyRole = Root | Publication
}
