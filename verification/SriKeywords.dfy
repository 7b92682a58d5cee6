/** The keywords of an upstream SRI: which of them ask for priority, and which declares the byte order. */
module SriKeywords {

  import opened ByteOrder
  import opened Processor

  /** A keyword, its value as text. */
  datatype Keyword = Keyword(id: string, value: string)

  predicate AsksPriority(k: Keyword) {
    k.id == "BULKIO_SRI_PRIORITY" || k.id == "use_BULKIO_SRI" || k.id == "sddsPacketAlt"
  }

  predicate DeclaresOrder(k: Keyword) {
    k.id == "dataRef" || k.id == "DATA_REF_STR"
  }

  /** The byte order a value names. One that is not known means the default. */
  function OrderNamed(value: string): Endian {
    if value == "43981" || value == "1234" then Little else Big
  }

  /** The byte order declared, if any. */
  function OrderDeclared(ks: seq<Keyword>): Option<Endian> {
    if ks == [] then None
    else
      var last := ks[|ks| - 1];
      if DeclaresOrder(last) then Some(OrderNamed(last.value)) else OrderDeclared(ks[..|ks| - 1])
  }

  /** It is the one that the last keyword to declare one names, and none if none does. */
  lemma {:induction false} LastDeclares(ks: seq<Keyword>, i: nat)
    requires i < |ks| && forall j :: i < j < |ks| ==> !DeclaresOrder(ks[j])
    ensures DeclaresOrder(ks[i]) ==> OrderDeclared(ks) == Some(OrderNamed(ks[i].value))
    ensures i == 0 && !DeclaresOrder(ks[0]) ==> OrderDeclared(ks) == None
  {
    if i < |ks| - 1 {
      LastDeclares(ks[..|ks| - 1], i);
    }
  }

  /** An upstream SRI with these keywords. */
  ghost function Describing(sri: Sri, asStored: int, ks: seq<Keyword>): Upstream {
    Upstream(sri, asStored, exists i :: 0 <= i < |ks| && AsksPriority(ks[i]), OrderDeclared(ks))
  }

  /** The loop over the keywords in `mergeUpstreamSRI`: what becomes of the priority flag and the byte order. */
  method ReadKeywords(ks: seq<Keyword>, useUpstream: bool, endianness: Endian, ghost u: Upstream)
    returns (use: bool, order: Endian)
    requires exists sri, asStored :: u == Describing(sri, asStored, ks)
    ensures use == (useUpstream || u.priority)
    ensures order == if u.order.Some? then u.order.value else endianness
  {
    use, order := useUpstream, endianness;
    for i := 0 to |ks|
      invariant use == (useUpstream || exists j :: 0 <= j < i && AsksPriority(ks[j]))
      invariant var declared := OrderDeclared(ks[..i]);
                order == if declared.Some? then declared.value else endianness
    {
      assert ks[..i + 1][..i] == ks[..i];
      var k := ks[i];
      if k.id == "BULKIO_SRI_PRIORITY" || k.id == "use_BULKIO_SRI" || k.id == "sddsPacketAlt" {
        use := true;
      } else if k.id == "dataRef" || k.id == "DATA_REF_STR" {
        if k.value == "43981" || k.value == "1234" {
          order := Little;
        } else if k.value == "52651" || k.value == "4321" {
          order := Big;
        } else {
          order := Big;
        }
      }
    }
    assert ks[..|ks|] == ks;
  }
}
