/** The sockets of one process, as the operating system presents them. */
module Net {
  import opened Bytes

  /** `open` holds the socket descriptors of the process.  `rx` is what the peer of a descriptor
      sends (all of it, from now on, then end of file) and `tx` what has been written to it.
      `stray` counts closes of a non-negative number that is not open, each of which could hit
      somebody else's descriptor.  On a `reliable` network reads fail only at the end of a
      stream and writes to open descriptors never.  A read at the end of a stream may report an
      end of file only finitely often (`patience`) before it reports an error.  `quiet` is how many
      more times `select` will time out before something can be read. */
  class Net {
    const reliable: bool
    var open: set<int>
    var rx: map<int, seq<byte>>
    var tx: map<int, seq<byte>>
    var stray: nat
    var patience: nat
    var quiet: nat

    ghost predicate Valid()
      reads this
    {
      open <= rx.Keys && open <= tx.Keys && forall fd | fd in open :: fd >= 0
    }

    constructor (reliable: bool)
      ensures Valid() && open == {} && stray == 0 && this.reliable == reliable
    {
      this.reliable := reliable;
      open, rx, tx, stray := {}, map[], map[], 0;
      patience, quiet := 0, 0;
    }

    /** A read would return: data, the end of the stream, or an error. */
    predicate Readable(fd: int)
      reads this
    {
      fd !in open || quiet == 0
    }

    /** `select` on one descriptor; it times out as often as nothing can be read. */
    method Select(fd: int) returns (ready: bool)
      modifies this`quiet
      ensures ready <==> old(Readable(fd))
      ensures ready ==> Readable(fd) && quiet == old(quiet)
      ensures !ready ==> quiet < old(quiet)
    {
      ready := Readable(fd);
      if !ready {
        quiet := quiet - 1;
      }
    }

    /** A new descriptor, from `socket` or `accept`; negative when there is none.  Any number
        that is not open may be handed out. */
    method Open() returns (fd: int)
      requires Valid()
      modifies this
      ensures Valid() && stray == old(stray) && patience == old(patience)
      ensures fd < 0 ==> open == old(open) && rx == old(rx) && tx == old(tx)
      ensures fd >= 0 ==>
        && fd !in old(open) && open == old(open) + {fd}
        && fd in rx && rx == old(rx)[fd := rx[fd]] && tx == old(tx)[fd := []]
    {
      fd := *;
      if fd < 0 || fd in open {
        fd := -1;
        return;
      }
      var incoming: seq<byte> := *;
      open, rx, tx := open + {fd}, rx[fd := incoming], tx[fd := []];
      quiet := *;
    }

    method Close(fd: int)
      requires Valid()
      modifies this
      ensures Valid() && rx == old(rx) && tx == old(tx) && patience == old(patience)
      ensures open == old(open) - {fd}
      ensures stray == old(stray) + if fd >= 0 && fd !in old(open) then 1 else 0
    {
      if fd >= 0 && fd !in open {
        stray := stray + 1;
      }
      open := open - {fd};
    }

    /** `read`: some of what is there, at most `max` bytes; zero at the end of the stream;
        negative for an error. */
    method Read(fd: int, max: nat) returns (n: int, data: seq<byte>)
      requires Valid() && max > 0
      modifies this
      ensures Valid() && open == old(open) && tx == old(tx) && stray == old(stray)
      ensures n <= max && (n >= 0 ==> |data| == n)
      ensures n > 0 ==>
        && fd in open && n <= |old(rx[fd])| && data == old(rx[fd])[..n]
        && rx == old(rx)[fd := old(rx[fd])[n..]] && patience == old(patience)
      ensures n <= 0 ==> rx == old(rx) && patience <= old(patience)
      ensures n == 0 ==> fd in open && rx[fd] == [] && patience < old(patience)
      ensures n < 0 ==> !reliable || fd !in open || rx[fd] == []
    {
      data := [];
      if fd !in open {
        n := -1;
        return;
      }
      var fails: bool := *;
      if !reliable && fails {
        n := -1;
        return;
      }
      if rx[fd] == [] {
        n := -1;
        if patience > 0 {
          patience := patience - 1;
          n := 0;
        }
        return;
      }
      var wanted: nat := *;
      n := Min(Min(wanted, max), |rx[fd]|);
      if n == 0 {
        n := 1;
      }
      data := rx[fd][..n];
      rx := rx[fd := rx[fd][n..]];
      quiet := *;
    }

    /** `write`: all of `data`, or a part of it, or a negative number for an error. */
    method Write(fd: int, data: seq<byte>) returns (n: int)
      requires Valid()
      modifies this
      ensures Valid() && open == old(open) && rx == old(rx) && stray == old(stray) && patience == old(patience)
      ensures n <= |data|
      ensures n > 0 ==> fd in open && tx == old(tx)[fd := old(tx[fd]) + data[..n]]
      ensures n <= 0 ==> tx == old(tx)
      ensures reliable && fd in open ==> n == |data|
    {
      n := -1;
      if fd in open {
        var sent: int := *;
        n := if reliable || sent > |data| then |data| else sent;
        if n > 0 {
          tx := tx[fd := tx[fd] + data[..n]];
        }
      }
    }
  }
}
