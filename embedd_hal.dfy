/**
 * The hardware abstraction the driver is given (embedd_hal.h): the bus type
 * tags, the bus capability table and the external services — the bus write
 * and read callbacks and the blocking sleep. The services are outside the
 * model: every call is appended to a ghost trace, and what the bus answers
 * (its status, the bytes it delivers) is left open.
 */
module EmbeddHal {
  import opened EmbeddError
  import opened EmbeddUtils

  // embedd_bus_type_t
  const BusTypeNa: Uint16 := 0
  const BusTypeI2c: Uint16 := 1
  const BusTypeSpi: Uint16 := 2

  /** embedd_bus_t: which of the two callbacks are present (non-NULL). */
  datatype Bus = Bus(canWrite: bool, canRead: bool)

  /** One call from the driver into the outside world, as the world saw it. */
  datatype Event =
    | BusWrite(dev: object, bytes: seq<Byte>, status: Status)  // bus->write(dev, bytes, |bytes|)
    | HalSleep(ms: Uint32)                                      // embedd_hal_sleep(ms)
    | BusRead(dev: object, bytes: seq<Byte>, status: Status)   // bus->read(dev, buf, |bytes|) delivering bytes

  /** The bus implementation and the sleep service, observed through the calls made to them. */
  class Hal {
    ghost var trace: seq<Event>

    constructor ()
      ensures trace == []
    {
      trace := [];
    }

    /** bus->write(dev, data, size): sends data[..size]; the outcome is the bus's. */
    method Write(bus: Bus, dev: object, data: array<Byte>, size: Uint32) returns (status: Status)
      requires bus.canWrite && size <= data.Length
      modifies this
      ensures trace == old(trace) + [BusWrite(dev, data[..size], status)]
    {
      status := *;
      trace := trace + [BusWrite(dev, data[..size], status)];
    }

    /** bus->read(dev, data, size): the bus fills data[..size] with whatever it received; the rest is untouched. */
    method Read(bus: Bus, dev: object, data: array<Byte>, size: Uint32) returns (status: Status)
      requires bus.canRead && size <= data.Length
      modifies this, data
      ensures data[size..] == old(data[size..])
      ensures trace == old(trace) + [BusRead(dev, data[..size], status)]
    {
      var i := 0;
      while i < size
        invariant 0 <= i <= size
        invariant data[size..] == old(data[size..])
        invariant trace == old(trace)
      {
        var received: Byte := *;
        data[i] := received;
        i := i + 1;
      }
      status := *;
      trace := trace + [BusRead(dev, data[..size], status)];
    }

    /** embedd_hal_sleep(ms). */
    method Sleep(ms: Uint32)
      modifies this
      ensures trace == old(trace) + [HalSleep(ms)]
    {
      trace := trace + [HalSleep(ms)];
    }
  }
}
