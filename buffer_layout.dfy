/** Vertex-buffer layouts (src/Renderer/Buffer.h): the byte size and component
    count of each shader data type, and the layout computation that gives every
    element its byte offset and the layout its stride. */
module BufferLayouts {
  /** The data types a vertex attribute can have. The first one is spelled
      `Node` in the source and stands for "none". */
  datatype ShaderDataType = Node | Float | Float2 | Float3 | Float4 | Mat3 | Mat4 | Int | Int2 | Int3 | Int4 | Bool

  /** Bytes taken by one value of the type. */
  function ShaderDataTypeSize(t: ShaderDataType): (n: nat)
    ensures n <= 64
    ensures n == 0 <==> t == Node
  {
    match t
    case Float => 4
    case Float2 => 4 * 2
    case Float3 => 4 * 3
    case Float4 => 4 * 4
    case Mat3 => 4 * 3 * 3
    case Mat4 => 4 * 4 * 4
    case Int => 4
    case Int2 => 4 * 2
    case Int3 => 4 * 3
    case Int4 => 4 * 4
    case Bool => 1
    case Node => 0
  }

  /** Components handed to the vertex-attribute pointer: a matrix counts its
      column length. */
  function ComponentCount(t: ShaderDataType): (n: nat)
    ensures n <= 4
    ensures n == 0 <==> t == Node
  {
    match t
    case Float => 1
    case Float2 => 2
    case Float3 => 3
    case Float4 => 4
    case Mat3 => 3
    case Mat4 => 4
    case Int => 1
    case Int2 => 2
    case Int3 => 3
    case Int4 => 4
    case Bool => 1
    case Node => 0
  }

  /** The two tables agree: a vector or scalar is ComponentCount components of
      four bytes (one for Bool); a matrix is ComponentCount columns of that many
      four-byte components. */
  lemma SizeIsComponentsTimesWidth(t: ShaderDataType)
    ensures t.Mat3? || t.Mat4? ==> ShaderDataTypeSize(t) == 4 * ComponentCount(t) * ComponentCount(t)
    ensures t.Bool? ==> ShaderDataTypeSize(t) == ComponentCount(t)
    ensures !(t.Mat3? || t.Mat4? || t.Bool?) ==> ShaderDataTypeSize(t) == 4 * ComponentCount(t)
  {
  }

  datatype BufferElement = BufferElement(name: string, dataType: ShaderDataType, size: nat, offset: nat, normalized: bool)

  /** The three-argument BufferElement constructor: the size comes from the
      type, the offset is zero until the layout sets it. */
  function MakeElement(dataType: ShaderDataType, name: string, normalized: bool): (e: BufferElement)
    ensures e.size == ShaderDataTypeSize(dataType) && e.offset == 0
    ensures e.name == name && e.dataType == dataType && e.normalized == normalized
  {
    BufferElement(name, dataType, ShaderDataTypeSize(dataType), 0, normalized)
  }

  /** Total size of a run of elements. */
  function SumSizes(es: seq<BufferElement>): nat
    decreases |es|
  {
    if es == [] then 0 else SumSizes(es[..|es| - 1]) + es[|es| - 1].size
  }

  /** `laid` is `es` with each element's offset set to the sizes before it. */
  ghost predicate OffsetsLaid(es: seq<BufferElement>, laid: seq<BufferElement>)
  {
    |laid| == |es| && forall i :: 0 <= i < |es| ==> laid[i] == es[i].(offset := SumSizes(es[..i]))
  }

  class BufferLayout {
    var elements: seq<BufferElement>
    var stride: nat

    /** The default layout: no elements, stride 0. */
    constructor Empty()
      ensures elements == [] && stride == 0
    {
      elements := [];
      stride := 0;
    }

    /** The initializer-list constructor: the elements in order, laid out. */
    constructor (input: seq<BufferElement>)
      ensures OffsetsLaid(input, elements) && stride == SumSizes(input)
    {
      elements := input;
      stride := 0;
      new;
      CalculateOffsetsAndStride();
    }

    /** Walks the elements in order, giving each the running offset and adding
        its size to the stride. */
    method CalculateOffsetsAndStride()
      modifies this
      ensures OffsetsLaid(old(elements), elements) && stride == SumSizes(old(elements))
    {
      var offset := 0;
      stride := 0;
      for i := 0 to |elements|
        invariant |elements| == |old(elements)|
        invariant forall j :: 0 <= j < i ==> elements[j] == old(elements)[j].(offset := SumSizes(old(elements)[..j]))
        invariant forall j :: i <= j < |elements| ==> elements[j] == old(elements)[j]
        invariant offset == stride == SumSizes(old(elements)[..i])
      {
        assert old(elements)[..i + 1][..i] == old(elements)[..i];
        elements := elements[i := elements[i].(offset := offset)];
        offset := offset + elements[i].size;
        stride := stride + elements[i].size;
      }
      assert old(elements)[..|elements|] == old(elements);
    }
  }

  /** The sizes before element i plus those after it make up the whole. */
  lemma {:induction false} SumSizesSplit(es: seq<BufferElement>, i: nat)
    requires i <= |es|
    ensures SumSizes(es[..i]) + SumSizes(es[i..]) == SumSizes(es)
    decreases |es|
  {
    if i < |es| {
      var init := es[..|es| - 1];
      SumSizesSplit(init, i);
      assert init[..i] == es[..i];
      assert es[i..][..|es[i..]| - 1] == init[i..];
    } else {
      assert es[..i] == es;
      assert es[i..] == [];
    }
  }

  /** The sizes of the first i elements are those of the first i - 1 plus the
      size of element i - 1. */
  lemma SumSizesPrefix(es: seq<BufferElement>, i: nat)
    requires 0 < i <= |es|
    ensures SumSizes(es[..i]) == SumSizes(es[..i - 1]) + es[i - 1].size
  {
    assert es[..i][..i - 1] == es[..i - 1];
  }

  /** Laying out keeps every element's name, type, size and normalisation, in
      order; each offset is the previous offset plus the previous size, the
      first offset is 0, and the last element ends exactly at the stride. */
  lemma LaidOutContiguously(es: seq<BufferElement>, laid: seq<BufferElement>)
    requires OffsetsLaid(es, laid)
    ensures forall i :: 0 <= i < |es| ==>
      laid[i].name == es[i].name && laid[i].dataType == es[i].dataType
      && laid[i].size == es[i].size && laid[i].normalized == es[i].normalized
    ensures |es| > 0 ==> laid[0].offset == 0
    ensures forall i :: 0 < i < |es| ==> laid[i].offset == laid[i - 1].offset + laid[i - 1].size
    ensures |es| > 0 ==> laid[|es| - 1].offset + laid[|es| - 1].size == SumSizes(es)
  {
    forall i | 0 < i < |es| ensures laid[i].offset == laid[i - 1].offset + laid[i - 1].size {
      SumSizesPrefix(es, i);
    }
    if |es| > 0 {
      SumSizesPrefix(es, |es|);
      assert es[..|es|] == es;
    }
  }

  /** Every element lies inside the stride: its offset plus its size never
      exceeds it. */
  lemma ElementsWithinStride(es: seq<BufferElement>, laid: seq<BufferElement>)
    requires OffsetsLaid(es, laid)
    ensures forall i :: 0 <= i < |es| ==> laid[i].offset + laid[i].size <= SumSizes(es)
  {
    forall i | 0 <= i < |es| ensures laid[i].offset + laid[i].size <= SumSizes(es) {
      SumSizesSplit(es, i + 1);
      assert es[..i + 1][..i] == es[..i];
    }
  }
}
