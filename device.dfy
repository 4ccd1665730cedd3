/**
  `isDeviceConnected` (web/app/utils/device.ts): a device counts as
  connected when its last heartbeat is strictly newer than five minutes
  before `now`. Instants are integer milliseconds; a missing `lastSeen`
  is `None`.
*/
module Connectivity {
  import opened Wrappers

  /** `DEVICE_CONNECTION_TIMEOUT_MS` (web/app/constants/ui.ts). */
  const DEVICE_CONNECTION_TIMEOUT_MS: int := 5 * 60 * 1000

  function IsDeviceConnected(lastSeen: Option<int>, now: int): (r: bool)
    ensures lastSeen.None? ==> !r
    ensures lastSeen.Some? ==> (r <==> now - lastSeen.value < 300000)
  {
    lastSeen.Some? && lastSeen.value > now - DEVICE_CONNECTION_TIMEOUT_MS
  }

  /** A heartbeat exactly five minutes old is already stale. */
  lemma ExactlyFiveMinutes(now: int)
    ensures !IsDeviceConnected(Some(now - 300000), now)
    ensures IsDeviceConnected(Some(now - 299999), now)
  {
  }

  /** A later heartbeat, or an earlier `now`, never makes a device less connected. */
  lemma Monotone(a: int, b: int, now: int, later: int)
    requires a <= b && now <= later
    ensures IsDeviceConnected(Some(a), now) ==> IsDeviceConnected(Some(b), now)
    ensures IsDeviceConnected(Some(a), later) ==> IsDeviceConnected(Some(a), now)
  {
  }
}
