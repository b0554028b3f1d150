/** The content composer: an output stream is the ordered sequence of blocks
    it queued; `append` queues a block and answers whether it had content. */
module Content {
  import opened JsValues

  datatype Block =
    | Text(content: JsVal, typeTag: JsVal)  // append(content, type)
    | FileRef(path: JsVal)                  // append({file: path})
    | FileList(files: seq<string>)          // append({files: files})
    | Note(key: string)                     // append(__(key)): a translated message
    | RemainingNote(count: int)             // progress.remaining followed by ui.return

  /** Whether appending the block queues anything: inline content and file
      paths must be non-empty (truthy), a file list must hold a file. */
  predicate Present(b: Block) {
    match b
    case Text(c, _) => Truthy(c)
    case FileRef(p) => Truthy(p)
    case FileList(fs) => |fs| > 0
    case Note(k) => k != ""
    case RemainingNote(_) => true
  }

  /** The block as it ends up in the stream: itself, or nothing when empty. */
  function Keep(b: Block): (r: seq<Block>)
    ensures r == [] || r == [b]
    ensures r == [b] <==> Present(b)
  {
    if Present(b) then [b] else []
  }

  /** An output stream being composed (the source's print stream). */
  class Stream {
    var blocks: seq<Block>

    constructor ()
      ensures blocks == []
    {
      blocks := [];
    }

    /** `append` (and `appendPlus`): queue the block if it has content. */
    method Append(b: Block) returns (queued: bool)
      modifies this
      ensures queued == Present(b)
      ensures blocks == old(blocks) + Keep(b)
    {
      queued := Present(b);
      if queued {
        blocks := blocks + [b];
      }
    }

    /** `append(a) || append(b) || append(c) || append(d)`: appends stop at
        the first alternative that has content. */
    method AppendFirstOf(a: Block, b: Block, c: Block, d: Block) returns (queued: bool)
      modifies this
      ensures queued <==> FirstPresent([a, b, c, d]) != []
      ensures blocks == old(blocks) + FirstPresent([a, b, c, d])
    {
      queued := Append(a);
      if !queued { queued := Append(b); }
      if !queued { queued := Append(c); }
      if !queued { queued := Append(d); }
      FirstPresentOfFour(a, b, c, d);
    }
  }

  /** `append(a) || append(b) || ...`: the first alternative with content. */
  function FirstPresent(chain: seq<Block>): (r: seq<Block>)
    ensures |r| <= 1
    ensures forall b :: b in r ==> b in chain && Present(b)
  {
    if chain == [] then []
    else if Present(chain[0]) then [chain[0]]
    else FirstPresent(chain[1..])
  }

  /** No alternative before index `i` has content. */
  predicate NoneBefore(chain: seq<Block>, i: int)
    requires 0 <= i <= |chain|
  {
    forall j :: 0 <= j < i ==> !Present(chain[j])
  }

  /** A fallback chain renders exactly its first present alternative, and
      nothing when every alternative is empty. */
  lemma {:induction false} FirstPresentIsFirstMatch(chain: seq<Block>)
    ensures FirstPresent(chain) == [] <==> NoneBefore(chain, |chain|)
    ensures forall i :: 0 <= i < |chain| && Present(chain[i]) && NoneBefore(chain, i) ==>
      FirstPresent(chain) == [chain[i]]
  {
    if chain != [] {
      FirstPresentIsFirstMatch(chain[1..]);
      if !Present(chain[0]) {
        forall i | 0 < i < |chain| && Present(chain[i]) && NoneBefore(chain, i)
          ensures NoneBefore(chain[1..], i - 1)
        {
        }
        if FirstPresent(chain[1..]) == [] {
          forall j | 0 <= j < |chain| ensures !Present(chain[j]) {
            if j > 0 { assert chain[j] == chain[1..][j - 1]; }
          }
        }
      }
    }
  }

  /** The four-way chain of the header and footer slots, unfolded. */
  lemma FirstPresentOfFour(a: Block, b: Block, c: Block, d: Block)
    ensures FirstPresent([a, b, c, d]) ==
      if Present(a) then [a] else if Present(b) then [b]
      else if Present(c) then [c] else if Present(d) then [d] else []
  {
    assert [d][1..] == [];
    assert FirstPresent([d]) == Keep(d);
    assert [c, d][1..] == [d];
    assert FirstPresent([c, d]) == if Present(c) then [c] else Keep(d);
    assert [b, c, d][1..] == [c, d];
    assert [a, b, c, d][1..] == [b, c, d];
  }
}
