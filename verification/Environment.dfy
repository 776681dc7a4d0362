/**
 * What the hub cannot decide: clock readings, link states and write results. Each is an arbitrary
 * sequence of answers, consumed one at a time, so a statement for every oracle is a statement for
 * every behaviour of the surroundings.
 */
module Environment {
  import opened Types

  /** `clock(k)` is the time in milliseconds since boot at the k-th reading. */
  datatype Oracle = Oracle(clock: nat -> nat, link: nat -> bool, radio: nat -> bool)

  /** One write to a node's configuration characteristic and whether it was acknowledged. */
  datatype Attempt = Attempt(node: NodeId, bytes: seq<u8>, ok: bool)

  /** How many answers have been consumed, and every write made so far. */
  datatype Cursor = Cursor(ticks: nat, links: nat, sends: nat, air: seq<Attempt>)

  /** The k-th value of the 32-bit millisecond counter. */
  function Millis(o: Oracle, k: nat): u32 { ToU32(o.clock(k)) }

  class World {
    const oracle: Oracle
    var at: Cursor

    constructor (oracle: Oracle)
      ensures this.oracle == oracle && at == Cursor(0, 0, 0, [])
    {
      this.oracle := oracle;
      at := Cursor(0, 0, 0, []);
    }

    method ReadMillis() returns (now: u32)
      modifies this
      ensures now == Millis(oracle, old(at).ticks)
      ensures at == old(at).(ticks := old(at).ticks + 1)
    {
      now := Millis(oracle, at.ticks);
      at := at.(ticks := at.ticks + 1);
    }

    method IsConnected() returns (up: bool)
      modifies this
      ensures up == oracle.link(old(at).links)
      ensures at == old(at).(links := old(at).links + 1)
    {
      up := oracle.link(at.links);
      at := at.(links := at.links + 1);
    }

    method Write(node: NodeId, bytes: seq<u8>) returns (ok: bool)
      modifies this
      ensures ok == oracle.radio(old(at).sends)
      ensures at == old(at).(sends := old(at).sends + 1, air := old(at).air + [Attempt(node, bytes, ok)])
    {
      ok := oracle.radio(at.sends);
      at := at.(sends := at.sends + 1, air := at.air + [Attempt(node, bytes, ok)]);
    }
  }
}
