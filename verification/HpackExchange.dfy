/** An encoder and a decoder object exchanging one header block. */
module HpackExchange {
  import opened Wrappers
  import opened HpackHeader
  import opened HpackLockstep
  import D = HpackDecode
  import E = HpackEncode
  import HpackEncoder
  import HpackDecoder

  /** The two ends, seen as the link between them. */
  ghost function Ends(enc: HpackEncoder.Encoder, dec: HpackDecoder.Decoder): Link
    reads enc, enc.table, dec, dec.table
  {
    Link(enc.Abstract(), dec.Abstract(), dec.maxSizeUpdate)
  }

  /**
   Encoding over the hash table and decoding into the deque gives the headers back and
   leaves the two tables equal.
   */
  method Exchange(enc: HpackEncoder.Encoder, dec: HpackDecoder.Decoder,
                  items: seq<E.Item>) returns (headers: seq<Header>)
    requires enc.Valid() && dec.Valid() && enc.huffman == dec.env.huffman
    requires Assumed(dec.env) && InSync(Ends(enc, dec)) && EventOk(dec.env, Ends(enc, dec), Block(items))
    modifies enc, enc.table, dec, dec.table
    ensures enc.Valid() && dec.Valid() && InSync(Ends(enc, dec))
    ensures headers == Reported(items, None)
    ensures dec.table.entries == enc.table.Contents() && dec.table.size == enc.table.size
    ensures dec.table.maxSize == enc.table.maxSize
  {
    hide E.EncodeBlock, D.DecodeAll, Reported, AllAcceptable, Sound, UpdateFits;
    BlockLockstep(dec.env, Ends(enc, dec), items);
    var bytes := enc.Encode(items, []);
    assert bytes == E.EncodeBlock(enc.huffman, old(enc.Abstract()), items).0;
    var rest, error;
    headers, rest, error := dec.Decode(bytes);
  }
}
