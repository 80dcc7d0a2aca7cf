/**
 * The browser media values the recorder handles: encoded data chunks, the
 * Blob they are packaged into, and the object URL that refers to that Blob.
 */
module Media {

  newtype Byte = b: int | 0 <= b < 256

  /** One `dataavailable` payload; its `size` is its length. */
  type Chunk = seq<Byte>

  /** `new Blob(parts, { type })`: the parts' bytes in order, tagged with a MIME type. */
  datatype Blob = Blob(bytes: seq<Byte>, mimeType: string)

  /** `URL.createObjectURL(blob)`, abstracted as a handle naming its Blob. */
  datatype ObjectUrl = ObjectUrl(target: Blob)

  /**
   * The in-order concatenation of chunks, as `Blob` performs it: empty
   * exactly when every part is.
   */
  function Flatten(parts: seq<Chunk>): (bytes: seq<Byte>)
    ensures |bytes| == 0 <==> forall i :: 0 <= i < |parts| ==> |parts[i]| == 0
    decreases |parts|
  {
    if |parts| == 0 then [] else Flatten(parts[..|parts| - 1]) + parts[|parts| - 1]
  }

  /** Packaging one more chunk appends exactly its bytes. */
  lemma FlattenAppend(parts: seq<Chunk>, c: Chunk)
    ensures Flatten(parts + [c]) == Flatten(parts) + c
  {
    assert (parts + [c])[..|parts|] == parts;
  }

  /**
   * The chunks the `dataavailable` handler keeps: those of positive size, in
   * arrival order.
   */
  function KeepNonEmpty(arrived: seq<Chunk>): (kept: seq<Chunk>)
    ensures |kept| <= |arrived|
    ensures forall i :: 0 <= i < |kept| ==> |kept[i]| > 0
    ensures forall c :: c in kept ==> c in arrived
    decreases |arrived|
  {
    if |arrived| == 0 then []
    else
      var last := arrived[|arrived| - 1];
      KeepNonEmpty(arrived[..|arrived| - 1]) + (if |last| > 0 then [last] else [])
  }

  /** A newly arrived chunk is kept, at the end, exactly when it is non-empty. */
  lemma KeepNonEmptyAppend(arrived: seq<Chunk>, c: Chunk)
    ensures KeepNonEmpty(arrived + [c])
      == KeepNonEmpty(arrived) + (if |c| > 0 then [c] else [])
  {
    assert (arrived + [c])[..|arrived|] == arrived;
  }

  /**
   * Dropping the empty chunks does not change the recorded bytes: the Blob
   * holds everything the recorder delivered, in delivery order.
   */
  lemma {:induction false} FlattenKeepNonEmpty(arrived: seq<Chunk>)
    ensures Flatten(KeepNonEmpty(arrived)) == Flatten(arrived)
    decreases |arrived|
  {
    if |arrived| > 0 {
      var init := arrived[..|arrived| - 1];
      var last := arrived[|arrived| - 1];
      FlattenKeepNonEmpty(init);
      if |last| > 0 {
        FlattenAppend(KeepNonEmpty(init), last);
      } else {
        assert KeepNonEmpty(arrived) == KeepNonEmpty(init);
        assert last == [];
      }
    }
  }
}
