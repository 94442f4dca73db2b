/** The HPACK encoder over its hash table, proved to write what `HpackEncode` says. */
module HpackEncoder {
  import opened Wrappers
  import opened HpackHeader
  import opened Octets
  import opened HpackFifo
  import opened HpackStatic
  import opened HpackInt
  import opened HpackString
  import opened HpackEncode
  import T = HpackTable
  import C = TableChains

  /** Limits the machine word can hold. */
  ghost predicate UpdateInWord(u: Option<SizeUpdate>) {
    match u
    case None => true
    case Some(One(v)) => v < C.WORD
    case Some(Two(low, high)) => low < C.WORD && high < C.WORD
  }

  class Encoder {
    const huffman: Huffman
    const table: T.Table
    var update: Option<SizeUpdate>

    ghost predicate Valid()
      reads this, table
    {
      table.Valid() && UpdateInWord(update)
    }

    ghost function Abstract(): State
      reads this, table
    {
      State(table.Contents(), table.maxSize, update)
    }

    constructor (huffman: Huffman, hash: Name -> nat, maxSize: nat, capacity: nat)
      requires maxSize < C.WORD
      ensures Valid() && fresh(table) && this.huffman == huffman
      ensures Abstract() == State([], maxSize, None)
    {
      this.huffman := huffman;
      table := new T.Table(hash, maxSize, capacity);
      update := None;
    }

    /** Queues a max size update; the next block announces it. */
    method QueueMaxSize(val: nat)
      requires Valid() && val < C.WORD
      modifies this
      ensures Valid() && Abstract() == UpdateMaxSize(old(Abstract()), val)
    {
      match update {
        case Some(One(prev)) =>
          if val > prev {
            if prev > table.maxSize {
              update := Some(One(val));
            } else {
              update := Some(Two(prev, val));
            }
          } else {
            update := Some(One(val));
          }
        case Some(Two(low, _)) =>
          if val < low {
            update := Some(One(val));
          } else {
            update := Some(Two(low, val));
          }
        case None =>
          if val != table.maxSize {
            update := Some(One(val));
          }
      }
    }

    method EncodeSizeUpdates(dst: Bytes) returns (out: Bytes)
      requires Valid()
      modifies this, table
      ensures Valid() && update.None?
      ensures out == dst + ApplyUpdate(old(Abstract())).0 && Abstract() == ApplyUpdate(old(Abstract())).1
    {
      hide T.Table.Coherent, EvictTo, IntBytes;
      var u := update;
      update := None;
      match u {
        case Some(One(val)) =>
          table.Resize(val);
          out := EncodeInt(val, 5, 0x20, dst);
        case Some(Two(low, high)) =>
          table.Resize(low);
          table.Resize(high);
          out := EncodeInt(low, 5, 0x20, dst);
          out := EncodeInt(high, 5, 0x20, out);
          assert out == dst + (SizeUpdateBytes(low) + SizeUpdateBytes(high));
        case None =>
          out := dst;
          assert dst == dst + [];
      }
    }

    method EncodeNotIndexed(idx: nat, value: Bytes, sensitive: bool, dst: Bytes) returns (out: Bytes)
      ensures out == dst + LiteralByIndex(huffman, idx, value, sensitive)
    {
      hide IntBytes, StrBytes;
      out := EncodeInt(idx, 4, NotIndexedTag(sensitive), dst);
      out := EncodeStr(huffman, value, out);
    }

    method EncodeLiteral(tag: byte, name: Bytes, value: Bytes, dst: Bytes) returns (out: Bytes)
      ensures out == dst + LiteralByName(huffman, tag, name, value)
    {
      hide StrBytes;
      out := dst + [tag];
      out := EncodeStr(huffman, name, out);
      out := EncodeStr(huffman, value, out);
    }

    method EncodeHeader(index: Index, dst: Bytes) returns (out: Bytes)
      requires Resolves(index, table.Contents())
      ensures out == dst + HeaderBytes(huffman, index, table.Contents())
    {
      hide IntBytes, StrBytes, LiteralByIndex, LiteralByName;
      match index {
        case Indexed(idx, _) =>
          out := EncodeInt(idx, 7, 0x80, dst);
        case NameOnly(idx, h) =>
          out := EncodeNotIndexed(idx, h.value, h.sensitive, dst);
        case Inserted(slot) =>
          var h := table.slots[slot].header;
          out := EncodeLiteral(0x40, NameSlice(h.name), h.value, dst);
        case InsertedValue(idx, slot) =>
          out := EncodeInt(idx, 6, 0x40, dst);
          out := EncodeStr(huffman, table.slots[slot].header.value, out);
        case NotIndexed(h) =>
          out := EncodeLiteral(NotIndexedTag(h.sensitive), NameSlice(h.name), h.value, dst);
      }
    }

    method EncodeHeaderWithoutName(last: Index, value: Bytes, sensitive: bool, dst: Bytes) returns (out: Bytes)
      ensures out == dst + NamelessBytes(huffman, last, value, sensitive)
    {
      match last {
        case NotIndexed(h) =>
          out := EncodeLiteral(NotIndexedTag(sensitive), NameSlice(h.name), value, dst);
        case _ =>
          var idx := match last
            case Indexed(idx, _) => idx
            case NameOnly(idx, _) => idx
            case Inserted(slot) => slot + DYN_OFFSET
            case InsertedValue(_, slot) => slot + DYN_OFFSET;
          out := EncodeNotIndexed(idx, value, sensitive, dst);
      }
    }

    /** Encodes a header block behind `dst`. */
    method Encode(items: seq<Item>, dst: Bytes) returns (out: Bytes)
      requires Valid() && WellFormed(items, false)
      modifies this, table
      ensures Valid()
      ensures out == dst + EncodeBlock(huffman, old(Abstract()), items).0
      ensures Abstract() == EncodeBlock(huffman, old(Abstract()), items).1
    {
      hide T.Table.Valid, IndexHeader, ApplyUpdate, HeaderBytes, NamelessBytes, Resolves;
      out := EncodeSizeUpdates(dst);
      ghost var start, es, max := out, table.Contents(), table.maxSize;
      ghost var whole := ItemBytes(huffman, es, max, None, items);
      var last: Option<Index> := None;
      for k := 0 to |items|
        invariant Valid() && update.None? && table.maxSize == max
        invariant WellFormed(items[k..], last.Some?)
        invariant var r := ItemBytes(huffman, table.Contents(), max, last, items[k..]);
                  start + whole.0 == out + r.0 && r.1 == whole.1
      {
        ghost var before := out;
        ghost var r := ItemBytes(huffman, table.Contents(), max, last, items[k..]);
        assert items[k..][0] == items[k] && items[k..][1..] == items[k + 1..];
        match items[k] {
          case Named(h) =>
            IndexResolves(table.Contents(), max, h);
            var index := table.Index(h);
            out := EncodeHeader(index, out);
            last := Some(index);
          case Nameless(value, sensitive) =>
            out := EncodeHeaderWithoutName(last.value, value, sensitive, out);
        }
        ghost var r' := ItemBytes(huffman, table.Contents(), max, last, items[k + 1..]);
        assert before + r.0 == out + r'.0;
      }
      ghost var prefix := ApplyUpdate(old(Abstract())).0;
      assert dst + prefix + whole.0 == dst + (prefix + whole.0);
    }
  }
}
