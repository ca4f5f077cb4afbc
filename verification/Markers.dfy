/** The markers launchers and the monitor leave in the metadata of a sandbox. */
module Markers {
  import opened Options

  /** A time in milliseconds, if one is stored. */
  type Marker = Option<nat>

  /** Milliseconds a marker counts (MONITOR_GRACE_SECONDS). */
  const GRACE := 120_000

  predicate Fresh(now: nat, marker: Marker) { marker.Some? && now < marker.value + GRACE }
}
