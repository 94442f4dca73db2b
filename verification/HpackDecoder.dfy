/** The HPACK decoder over its deque, proved to do what `HpackDecode` says. */
module HpackDecoder {
  import opened Wrappers
  import opened HpackHeader
  import opened Octets
  import opened HpackFifo
  import opened HpackInt
  import opened HpackDecode

  class DecoderTable {
    var entries: Entries
    var size: nat
    var maxSize: nat

    ghost predicate Valid()
      reads this
    {
      size == Size(entries) <= maxSize
    }

    constructor (maxSize: nat)
      ensures Valid() && entries == [] && this.maxSize == maxSize
    {
      entries, size := [], 0;
      this.maxSize := maxSize;
    }

    // Pops entries until `len` more octets fit, or nothing is left.
    method Reserve(len: nat)
      requires Valid()
      modifies this`entries, this`size
      ensures size == Size(entries) <= maxSize
      ensures entries == if len <= maxSize then EvictTo(old(entries), maxSize - len) else []
    {
      hide EvictTo, Size, Len;
      while size + len > maxSize
        invariant size == Size(entries) <= maxSize
        invariant len <= maxSize ==> EvictTo(entries, maxSize - len) == EvictTo(old(entries), maxSize - len)
        decreases |entries|
      {
        if entries == [] {
          return;
        }
        SizeBound(entries);
        EvictPop(entries, if len <= maxSize then maxSize - len else 0);
        var last := entries[|entries| - 1];
        entries := entries[..|entries| - 1];
        size := size - Len(last);
      }
      EvictNone(entries, maxSize - len);
    }

    method Insert(entry: Header)
      requires Valid()
      modifies this`entries, this`size
      ensures Valid() && entries == Add(old(entries), entry, maxSize) == EvictTo([entry] + old(entries), maxSize)
    {
      AddStores(entries, entry, maxSize);
      var len := Len(entry);
      Reserve(len);
      if size + len <= maxSize {
        SizePush(entry, entries);
        size := size + len;
        entries := [entry] + entries;
      }
    }

    method SetMaxSize(newSize: nat)
      requires Valid()
      modifies this
      ensures Valid() && maxSize == newSize && entries == EvictTo(old(entries), newSize)
    {
      maxSize := newSize;
      Consolidate();
    }

    // Makes the table fit its limit.
    method Consolidate()
      requires size == Size(entries)
      modifies this`entries, this`size
      ensures Valid() && entries == EvictTo(old(entries), maxSize)
    {
      hide EvictTo, Size, Len;
      while size > maxSize
        invariant size == Size(entries)
        invariant EvictTo(entries, maxSize) == EvictTo(old(entries), maxSize)
        decreases |entries|
      {
        EvictPop(entries, maxSize);
        var last := entries[|entries| - 1];
        size := size - Len(last);
        entries := entries[..|entries| - 1];
      }
      EvictNone(entries, maxSize);
    }
  }

  class Decoder {
    const env: Env
    const table: DecoderTable
    var maxSizeUpdate: Option<nat>
    var lastMaxUpdate: nat

    ghost predicate Valid()
      reads this, table
    {
      table.Valid()
    }

    ghost function Abstract(): State
      reads this, table
    {
      State(table.entries, table.maxSize, lastMaxUpdate)
    }

    constructor (env: Env, size: nat)
      ensures Valid() && fresh(table) && this.env == env && maxSizeUpdate.None?
      ensures Abstract() == State([], size, size)
    {
      this.env := env;
      table := new DecoderTable(size);
      maxSizeUpdate := None;
      lastMaxUpdate := size;
    }

    /** Queues a potential size update; of several the largest counts. */
    method QueueSizeUpdate(size: nat)
      modifies this`maxSizeUpdate
      ensures maxSizeUpdate.Some? && maxSizeUpdate.value >= size
      ensures old(maxSizeUpdate).Some? ==> maxSizeUpdate.value >= old(maxSizeUpdate).value
      ensures maxSizeUpdate.value == size || maxSizeUpdate == old(maxSizeUpdate)
    {
      var top := match maxSizeUpdate
        case Some(v) => if v > size then v else size
        case None => size;
      maxSizeUpdate := Some(top);
    }

    // Applies one representation to the table and reports its header, if it has one.
    method DecodeOne(canResize: bool, buf: Bytes) returns (r: Parsed<seq<Header>>)
      requires Valid() && buf != []
      modifies table
      ensures Valid()
      ensures match ParseOne(env, old(Abstract()), canResize, buf)
              case Failed(e) => r == Failed(e) && Abstract() == old(Abstract())
              case Parsed(effect, used) => r == Parsed(effect.emitted, used) && Abstract() == effect.state
    {
      hide ParseInt, ParseLiteral, ParseIndexed, EvictTo, Add, Size;
      match Load(buf[0])
      case IndexedRep =>
        r := AsEmitted(ParseIndexed(table.entries, buf));
      case WithIndexing =>
        var p := ParseLiteral(env, table.entries, buf, 6);
        if p.Parsed? {
          table.Insert(p.value);
        }
        r := AsEmitted(p);
      case WithoutIndexing =>
        r := AsEmitted(ParseLiteral(env, table.entries, buf, 4));
      case NeverIndexed =>
        r := AsEmitted(ParseLiteral(env, table.entries, buf, 4));
      case SizeUpdateRep =>
        if !canResize {
          return Failed(InvalidMaxDynamicSize);
        }
        var p := DecodeInt(buf, 5);
        if p.Failed? {
          return Failed(p.error);
        }
        if p.value > lastMaxUpdate {
          return Failed(InvalidMaxDynamicSize);
        }
        table.SetMaxSize(p.value);
        r := Parsed([], p.used);
    }

    /**
     Decodes the headers found in the given buffer: those emitted, the octets left for
     the next attempt, and the error that stopped it.
     */
    method Decode(src: Bytes) returns (emitted: seq<Header>, rest: Bytes, error: Option<DecoderError>)
      requires Valid()
      modifies this, table
      ensures Valid() && maxSizeUpdate.None?
      ensures var begin := if old(maxSizeUpdate).Some?
                           then old(Abstract()).(allowed := old(maxSizeUpdate).value)
                           else old(Abstract());
              DecodeAll(env, begin, true, src) == Decoded(Abstract(), emitted, rest, error)
    {
      hide ParseOne, Dropped, Size;
      var canResize := true;
      if maxSizeUpdate.Some? {
        lastMaxUpdate := maxSizeUpdate.value;
        maxSizeUpdate := None;
      }
      emitted, rest, error := [], src, None;
      ghost var whole := DecodeAll(env, Abstract(), true, src);
      while rest != []
        invariant Valid() && maxSizeUpdate.None?
        invariant var d := DecodeAll(env, Abstract(), canResize, rest);
                  whole == d.(emitted := emitted + d.emitted)
        decreases |rest|
      {
        ghost var before := Abstract();
        var p := DecodeOne(canResize, rest);
        if p.Failed? {
          error := Some(p.error);
          rest := rest[Dropped(env, table.entries, rest)..];
          return;
        }
        canResize := canResize && p.value == [];
        emitted := emitted + p.value;
        rest := rest[p.used..];
      }
    }
  }

  /** A parsed header as the list it adds to the output. */
  function AsEmitted(p: Parsed<Header>): (r: Parsed<seq<Header>>)
    ensures p.Failed? ==> r == Failed(p.error)
    ensures p.Parsed? ==> r == Parsed([p.value], p.used)
  {
    match p
    case Failed(e) => Failed(e)
    case Parsed(h, used) => Parsed([h], used)
  }
}
