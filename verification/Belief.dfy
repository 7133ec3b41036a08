// app/agent/belief.py: the running risk score, in log-odds.

module Beliefs {
  import opened Domain

  class Belief {
    var logodds: real
    var trace: seq<(string, real)>

    constructor (prior: real)
      ensures logodds == prior && trace == []
    {
      logodds, trace := prior, [];
    }

    method Apply(detail: string, delta: real)
      modifies this
      ensures logodds == old(logodds) + delta
      ensures trace == old(trace) + [(detail, delta)]
    {
      logodds := logodds + delta;
      trace := trace + [(detail, delta)];
    }
  }
}
