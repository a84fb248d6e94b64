/** The injectable time source. */
module Time {
  import opened Reals

  /** A monotone clock. A manual clock moves only when slept on, by exactly what is asked;
      any other may also drift forward between readings and oversleep. */
  class Clock {
    const manual: bool
    var now: real

    constructor (manual: bool, start: real)
      ensures this.manual == manual && now == start
    {
      this.manual := manual;
      now := start;
    }

    method Monotonic() returns (t: real)
      modifies this
      ensures t == now >= old(now)
      ensures manual ==> now == old(now)
    {
      if !manual {
        var drift: real := *;
        now := now + Max(0.0, drift);
      }
      t := now;
    }

    method Sleep(seconds: real)
      modifies this
      ensures now >= old(now) && now >= old(now) + seconds
      ensures manual ==> now == if seconds > 0.0 then old(now) + seconds else old(now)
    {
      var wake := if seconds > 0.0 then now + seconds else now;
      if !manual {
        var late: real := *;
        wake := wake + Max(0.0, late);
      }
      now := wake;
    }
  }
}
