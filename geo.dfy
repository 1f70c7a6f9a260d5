/**
 * Great-circle distance from the base to a listing.  The trigonometry itself is
 * a parameter `gc` (base lat, base lon, lat, lon to kilometres); what the model
 * keeps is that a listing without both coordinates has no distance.
 */
module Geo {
  import opened Wrappers

  type GreatCircle = (real, real, real, real) -> real

  function HaversineKm(lat1: real, lon1: real, lat2: Option<real>, lon2: Option<real>,
                       gc: GreatCircle): (d: Option<real>)
    ensures d.None? <==> lat2.None? || lon2.None?
    ensures d.Some? ==> d.value == gc(lat1, lon1, lat2.value, lon2.value)
  {
    if lat2.None? || lon2.None? then None
    else Some(gc(lat1, lon1, lat2.value, lon2.value))
  }
}
