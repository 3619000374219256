/** `pb_field_iter_t`: a cursor over a descriptor that wraps around. */
module PbIterator {
  import opened PbTypes

  class FieldIter {
    const fields: seq<Field> // up to the terminator, whose tag is 0
    var pos: nat
    var requiredIndex: nat
    var slot: nat            // `pData` and `pSize`: where the struct keeps the field

    /** The derived counters agree with the position. */
    ghost predicate Valid()
      reads this
    {
      if fields == [] then pos == 0 && requiredIndex == 0
      else pos < |fields| && requiredIndex == ReqCount(fields, pos) && slot == SlotOf(fields, pos)
    }

    /** `pb_field_iter_begin` */
    constructor Begin(fields: seq<Field>)
      ensures Valid() && this.fields == fields && pos == 0
    {
      this.fields, pos, requiredIndex, slot := fields, 0, 0, 0;
    }

    /** `pb_field_iter_next`: false when it wrapped to the start. */
    method Next() returns (more: bool)
      requires Valid()
      modifies this
      ensures Valid()
      ensures fields == [] ==> !more && pos == 0
      ensures fields != [] ==> pos == (if old(pos) + 1 == |fields| then 0 else old(pos) + 1) && more == (pos != 0)
    {
      if pos == |fields| {
        return false;
      }
      var prev := fields[pos];
      pos := pos + 1;
      if pos == |fields| {
        pos, requiredIndex, slot := 0, 0, 0;
        return false;
      }
      more := true;
      if prev.htype == Oneof && fields[pos].htype == Oneof && fields[pos].joins {
        return;
      }
      if prev.htype == Required {
        requiredIndex := requiredIndex + 1;
      }
      slot := slot + 1;
    }

    /** `pb_field_iter_find`: looks at every field once, from the current one around. The terminator of an
        empty message is looked at too. */
    method Find(tag: nat) returns (found: bool)
      requires Valid()
      modifies this
      ensures Valid()
      ensures found <==> (exists i :: 0 <= i < |fields| && fields[i].tag == tag) || (fields == [] && tag == 0)
      ensures found && fields != [] ==> fields[pos].tag == tag
    {
      if fields == [] {
        return tag == 0;
      }
      var start := pos;
      while true
        invariant Valid()
        invariant forall i :: 0 <= i < |fields| && Looked(start, pos, i) ==> fields[i].tag != tag
        decreases if start <= pos then |fields| - pos + start else start - pos
      {
        if fields[pos].tag == tag {
          return true;
        }
        var more := Next();
        if pos == start {
          return false;
        }
      }
    }

    /** On the way around from start to pos, i was passed. */
    static predicate Looked(start: nat, pos: nat, i: nat) {
      if start <= pos then start <= i < pos else start <= i || i < pos
    }
  }
}
