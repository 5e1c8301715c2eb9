/** The elements which monitor queues pass around by reference. */
module MonitorElements {
  import opened PvData

  class MonitorElement {
    var value: Value
    var changed: Mask
    var overrun: Mask

    constructor (next: Extents)
      ensures Contents() == Delta(Blank(next), {}, {})
    {
      value, changed, overrun := Blank(next), {}, {};
    }

    function Contents(): Delta
      reads this
    {
      Delta(value, changed, overrun)
    }
  }

  ghost function Deltas(q: seq<MonitorElement>): (r: seq<Delta>)
    reads q
    ensures |r| == |q|
  {
    seq(|q|, i requires 0 <= i < |q| reads q => q[i].Contents())
  }
}
