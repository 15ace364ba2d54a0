/**
  The loadcell command with its throttle cache and sanitizer, as one caller at a time sees it
  (callers queue at the gate).  Results are lists a caller may overwrite; the cache is never
  one of them.
*/
module LoadcellThrottle {
  import opened Basics
  import Engine
  import EngineLoadcells
  import San = Sanitizer

  class LoadcellCommands {
    const cfg: San.Config
    var minGap: real
    var cache: array?<string>
    var cacheTs: real
    var sanitizer: San.LoadcellSanitizer?

    /** Frames sanitized since the last reset, and every list handed to a caller. */
    ghost var samples: seq<Engine.LogEvent>
    ghost var handedOut: set<array<string>>

    /** The sanitizer's state is a function of the samples. */
    ghost predicate SanitizerFollows()
      reads this, sanitizer
    {
      && (forall i | 0 <= i < |samples| :: samples[i].Sampled?)
      && (sanitizer != null <==> cfg.enabled)
      && (sanitizer != null ==>
            && sanitizer.Valid() && sanitizer.cfg == cfg && sanitizer.channels == San.CHANNELS
            && sanitizer.State() == EngineLoadcells.Replay(cfg, samples).channels)
    }

    /** So is the cache, and no caller holds it. */
    ghost predicate Valid()
      reads this, cache, sanitizer
    {
      && SanitizerFollows()
      && (cache != null ==>
            && cache !in handedOut && |samples| > 0
            && cache[..] == EngineLoadcells.Replay(cfg, samples).texts
            && cacheTs == samples[|samples| - 1].time)
    }

    constructor (cfg: San.Config, minGap: real)
      ensures Valid() && this.cfg == cfg && this.minGap == minGap
      ensures samples == [] && handedOut == {} && cache == null
      ensures sanitizer != null ==> fresh(sanitizer)
    {
      this.cfg := cfg;
      this.minGap := minGap;
      cache := null;
      cacheTs := 0.0;
      samples := [];
      handedOut := {};
      if cfg.enabled {
        var s := new San.LoadcellSanitizer(cfg, San.CHANNELS);
        sanitizer := s;
      } else {
        sanitizer := null;
      }
    }

    /** The cache is on, filled and younger than the gap. */
    predicate CacheHit(entry: real)
      reads this
    {
      minGap > 0.0 && cache != null && entry - cacheTs < minGap
    }

    /** A calibration leaves nothing of earlier frames. */
    method ResetLoadcellProcessing()
      requires Valid()
      modifies this, sanitizer
      ensures Valid() && samples == [] && cache == null
      ensures sanitizer == old(sanitizer) && minGap == old(minGap) && handedOut == old(handedOut)
    {
      cache := null;
      cacheTs := 0.0;
      samples := [];
      if sanitizer != null {
        sanitizer.Reset();
      }
    }

    method SanitizeLoadcells(values: seq<string>, ts: real) returns (out: seq<string>)
      requires SanitizerFollows()
      modifies `samples, sanitizer
      ensures SanitizerFollows()
      ensures samples == old(samples) + [Engine.Sampled(|old(samples)|, values, ts)]
      ensures out == EngineLoadcells.Replay(cfg, samples).texts
    {
      hide San.SanitizeFrame;
      ghost var before := samples;
      samples := samples + [Engine.Sampled(|samples|, values, ts)];
      assert samples[..|before|] == before;
      if sanitizer == null {
        out := values;
      } else {
        out := sanitizer.Sanitize(values, ts);
      }
    }

    /** A new list with the given texts. */
    static method Copy(texts: seq<string>) returns (list: array<string>)
      ensures fresh(list) && list[..] == texts
    {
      list := new string[|texts|](i requires 0 <= i < |texts| => texts[i]);
    }

    /**
      One call.  While its request waits for the line or its answer, a calibration may complete
      (other callers wait at the gate).  A hit returns a copy of the sanitizer's view of the
      newest sample and changes nothing; a failed request changes nothing of its own; an accepted
      frame is sanitized once, cached and returned, as two separate lists.
    */
    method GetLoadcells(entry: real, calibrated: bool, reply: Option<seq<string>>, arrival: real)
      returns (result: array?<string>)
      requires Valid()
      modifies this, sanitizer
      ensures Valid() && sanitizer == old(sanitizer) && minGap == old(minGap)
      ensures old(CacheHit(entry)) <==> old(minGap > 0.0 && cache != null && entry - cacheTs < minGap)
      ensures result == null <==> !old(CacheHit(entry)) && reply.None?
      ensures result != null ==> fresh(result) && handedOut == old(handedOut) + {result}
      ensures result == null ==> handedOut == old(handedOut)
      ensures old(CacheHit(entry)) || (reply.None? && !calibrated) ==>
                && samples == old(samples) && cache == old(cache) && cacheTs == old(cacheTs)
      ensures old(CacheHit(entry)) ==>
                && |samples| > 0 && entry - samples[|samples| - 1].time < minGap
      ensures !old(CacheHit(entry)) && calibrated && reply.None? ==> samples == [] && cache == null
      ensures !old(CacheHit(entry)) && reply.Some? ==>
                var before := if calibrated then [] else old(samples);
                && samples == before + [Engine.Sampled(|before|, reply.value, arrival)]
                && cache != null && fresh(cache)
      ensures result != null ==> result[..] == EngineLoadcells.Replay(cfg, samples).texts
    {
      hide EngineLoadcells.Replay, San.LoadcellSanitizer.Valid, San.LoadcellSanitizer.State;
      if CacheHit(entry) {
        result := Copy(cache[..]);
        handedOut := handedOut + {result};
        return;
      }
      if calibrated {
        ResetLoadcellProcessing();
      }
      if reply.None? {
        return null;
      }
      var texts := SanitizeLoadcells(reply.value, arrival);
      result := Copy(texts);
      cache := Copy(texts);
      cacheTs := arrival;
      handedOut := handedOut + {result};
    }
  }

  /** Overwriting a returned list does not show in what the next caller gets from the cache. */
  method OverwriteResult(c: LoadcellCommands, first: real, values: seq<string>, arrival: real, next: real, spoiled: string)
    returns (again: array<string>)
    requires c.Valid() && !c.CacheHit(first)
    requires c.minGap > 0.0 && next - arrival < c.minGap
    modifies c, c.sanitizer
    ensures c.samples == old(c.samples) + [Engine.Sampled(|old(c.samples)|, values, arrival)]
    ensures again[..] == EngineLoadcells.Replay(c.cfg, c.samples).texts
  {
    hide EngineLoadcells.Replay;
    var result := c.GetLoadcells(first, false, Some(values), arrival);
    for i := 0 to result.Length
      invariant c.Valid() && result in c.handedOut && c.cache != null
      invariant c.samples == old(c.samples) + [Engine.Sampled(|old(c.samples)|, values, arrival)]
      invariant c.sanitizer == old(c.sanitizer) && c.minGap == old(c.minGap)
      invariant fresh(result)
    {
      result[i] := spoiled;
    }
    again := c.GetLoadcells(next, false, None, next);
  }
}
