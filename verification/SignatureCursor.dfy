/**
 The mutually recursive cursor functions of sig_helpers.cpp: each advances a shared cursor past what
 it recognises and reports whether it could. A read past the end of the signature, which the source
 does not guard, counts as a failure. After a failure the cursor's place is unspecified.
 */
module SignatureCursor {
  import opened Bytes
  import opened Signatures

  class Cursor {
    const sig: seq<byte>
    var pos: nat

    constructor (sig: seq<byte>, pos: nat)
      ensures this.sig == sig && this.pos == pos
    {
      this.sig := sig;
      this.pos := pos;
    }

    /** ParseNumber and ParseTypeDefOrRefEncoded (sig_helpers.cpp:5-25). */
    method ParseNumber() returns (ok: bool, number: nat)
      modifies this
      ensures var p := ParseNum(sig, old(pos));
              ok == p.Some? && (ok ==> pos == p.value.next && number == p.value.item.value)
    {
      var p := ParseNum(sig, pos);
      match p {
        case None => ok, number := false, 0;
        case Some(n) =>
          pos := n.next;
          ok, number := true, n.item.value;
      }
    }

    method ParseOptionalCustomMods() returns (ok: bool)
      modifies this
      ensures var p := ParseMods(sig, old(pos)); ok == p.Some? && (ok ==> pos == p.value.next)
    {
      while pos < |sig| && (sig[pos] == CMOD_OPT || sig[pos] == CMOD_REQD)
        invariant ParseMods(sig, old(pos)).Some? <==> ParseMods(sig, pos).Some?
        invariant ParseMods(sig, pos).Some? ==>
                    ParseMods(sig, old(pos)).value.next == ParseMods(sig, pos).value.next
        decreases |sig| - pos
      {
        pos := pos + 1;
        var read, _ := ParseNumber();
        if !read {
          return false;
        }
      }
      return pos < |sig|;
    }

    method ParseNumbers(n: nat) returns (ok: bool)
      requires pos <= |sig|
      modifies this
      ensures var p := ParseItems(sig, old(pos), n); ok == p.Some? && (ok ==> pos == p.value.next)
    {
      var i := 0;
      while i < n
        invariant i <= n && pos <= |sig|
        invariant ParseItems(sig, old(pos), n).Some? <==> ParseItems(sig, pos, n - i).Some?
        invariant ParseItems(sig, pos, n - i).Some? ==>
                    ParseItems(sig, old(pos), n).value.next == ParseItems(sig, pos, n - i).value.next
      {
        var read, _ := ParseNumber();
        if !read {
          return false;
        }
        i := i + 1;
      }
      return true;
    }

    /** Format: Rank NumSizes Size* NumLoBounds LoBound* (sig_helpers.cpp:129-153). */
    method ParseArrayShape() returns (ok: bool)
      modifies this
      ensures var p := ParseShape(sig, old(pos)); ok == p.Some? && (ok ==> pos == p.value.next)
    {
      var read, count := ParseNumber();
      if !read {
        return false;
      }
      read, count := ParseNumber();
      if !read {
        return false;
      }
      read := ParseNumbers(count);
      if !read {
        return false;
      }
      read, count := ParseNumber();
      if !read {
        return false;
      }
      ok := ParseNumbers(count);
    }

    /** ParseRetType and ParseParam; VOID needs no case of its own because ParseType accepts it. */
    method ParseSlot() returns (ok: bool)
      modifies this
      ensures var p := Signatures.ParseSlot(sig, old(pos)); ok == p.Some? && (ok ==> pos == p.value.next)
      decreases |sig| - pos, 4
    {
      ok := ParseOptionalCustomMods();
      if !ok {
        return;
      }
      if sig[pos] == TYPEDBYREF {
        pos := pos + 1;
        return true;
      }
      if sig[pos] == BYREF {
        pos := pos + 1;
      }
      ok := ParseType();
    }

    /** The parameter loop of ParseMethod, with at most one sentinel. */
    method ParseParamList(n: nat) returns (ok: bool)
      requires pos <= |sig|
      modifies this
      ensures var p := ParseParams(sig, old(pos), n, false); ok == p.Some? && (ok ==> pos == p.value.next)
      decreases |sig| - pos, 5
    {
      hide ParamsOk;
      hide SlotOk;
      hide Signatures.ParseSlot;
      var i, found := 0, false;
      while i < n
        invariant i <= n && old(pos) <= pos <= |sig|
        invariant ParseParams(sig, old(pos), n, false).Some? <==> ParseParams(sig, pos, n - i, found).Some?
        invariant ParseParams(sig, pos, n - i, found).Some? ==>
                    ParseParams(sig, old(pos), n, false).value.next == ParseParams(sig, pos, n - i, found).value.next
      {
        if pos < |sig| && sig[pos] == SENTINEL {
          if found {
            return false;
          }
          found := true;
          pos := pos + 1;
        }
        var read := ParseSlot();
        if !read {
          return false;
        }
        i := i + 1;
      }
      return true;
    }

    method ParseMethodSignature() returns (ok: bool)
      modifies this
      ensures var p := ParseMethod(sig, old(pos)); ok == p.Some? && (ok ==> pos == p.value.next)
      decreases |sig| - pos, 6
    {
      if pos >= |sig| {
        return false;
      }
      var read, count := true, 0;
      if sig[pos] == CALLCONV_GENERIC {
        pos := pos + 1;
        read, count := ParseNumber();
        if !read {
          return false;
        }
      }
      read, count := ParseNumber();
      if !read {
        return false;
      }
      read := ParseSlot();
      if !read {
        return false;
      }
      ok := ParseParamList(count);
    }

    method ParseTypeList(n: nat) returns (ok: bool)
      requires pos <= |sig|
      modifies this
      ensures var p := ParseTypes(sig, old(pos), n); ok == p.Some? && (ok ==> pos == p.value.next)
      decreases |sig| - pos, 4
    {
      hide TypesOk;
      hide TypeOk;
      hide Signatures.ParseType;
      var i := 0;
      while i < n
        invariant i <= n && old(pos) <= pos <= |sig|
        invariant ParseTypes(sig, old(pos), n).Some? <==> ParseTypes(sig, pos, n - i).Some?
        invariant ParseTypes(sig, pos, n - i).Some? ==>
                    ParseTypes(sig, old(pos), n).value.next == ParseTypes(sig, pos, n - i).value.next
      {
        var read := ParseType();
        if !read {
          return false;
        }
        i := i + 1;
      }
      return true;
    }

    /** The GENERICINST case of ParseType (sig_helpers.cpp:235-254). */
    method ParseGenericInstance() returns (ok: bool)
      modifies this
      ensures var p := ParseGeneric(sig, old(pos)); ok == p.Some? && (ok ==> pos == p.value.next)
      decreases |sig| - pos, 3
    {
      if pos >= |sig| || (sig[pos] != VALUETYPE && sig[pos] != CLASS) {
        return false;
      }
      pos := pos + 1;
      var read, number := ParseNumber();
      if !read {
        return false;
      }
      read, number := ParseNumber();
      if !read {
        return false;
      }
      ok := ParseTypeList(number);
    }

    /** ParseType (sig_helpers.cpp:158-265): succeeds on a type and leaves the cursor just after it. */
    method ParseType() returns (ok: bool)
      modifies this
      ensures var p := Signatures.ParseType(sig, old(pos)); ok == p.Some? && (ok ==> pos == p.value.next)
      decreases |sig| - pos, 3
    {
      if pos >= |sig| {
        return false;
      }
      var elem := sig[pos];
      pos := pos + 1;
      if IsPrim(elem) {
        return true;
      } else if elem == PTR || elem == SZARRAY {
        ok := ParseOptionalCustomMods();
        if ok {
          ok := ParseType();
        }
      } else if elem == VALUETYPE || elem == CLASS || elem == VAR || elem == MVAR {
        var number;
        ok, number := ParseNumber();
      } else if elem == FNPTR {
        ok := ParseMethodSignature();
      } else if elem == ARRAY {
        ok := ParseType();
        if ok {
          ok := ParseArrayShape();
        }
      } else if elem == GENERICINST {
        ok := ParseGenericInstance();
      } else {
        return false;
      }
    }
  }
}
