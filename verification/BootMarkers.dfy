/** Boot-stamped custody markers (src/state.rs: boot_custody_may_remain, valid_boot_id). */
module BootMarkers {

  datatype Marker = Absent | Holds(boot: string)

  predicate HexDigit(c: char) {
    '0' <= c <= '9' || 'a' <= c <= 'f' || 'A' <= c <= 'F'
  }

  predicate ValidBootId(id: string) {
    && |id| == 36
    && forall i :: 0 <= i < |id| ==> if i == 8 || i == 13 || i == 18 || i == 23 then id[i] == '-' else HexDigit(id[i])
  }

  /** boot_custody_may_remain: only a marker of another, well-formed boot is discharged by reboot. */
  predicate MayRemain(m: Marker, boot: string) {
    m.Holds? && (!ValidBootId(m.boot) || !ValidBootId(boot) || m.boot == boot)
  }

  predicate Hex(s: string, n: nat) {
    |s| == n && forall i :: 0 <= i < n ==> HexDigit(s[i])
  }

  /** The textual form of section 4 of RFC 9562: 8-4-4-4-12 hexadecimal digits. */
  predicate Dashed(id: string, a: string, b: string, c: string, d: string, e: string) {
    Hex(a, 8) && Hex(b, 4) && Hex(c, 4) && Hex(d, 4) && Hex(e, 12) && id == a + "-" + b + "-" + c + "-" + d + "-" + e
  }

  lemma BootIdExactly(id: string)
    ensures ValidBootId(id) <==> exists a, b, c, d, e :: Dashed(id, a, b, c, d, e)
  {
    if ValidBootId(id) {
      var a, b, c, d, e := id[..8], id[9..13], id[14..18], id[19..23], id[24..];
      assert id == a + "-" + b + "-" + c + "-" + d + "-" + e;
      assert Dashed(id, a, b, c, d, e);
    }
    if a, b, c, d, e :| Dashed(id, a, b, c, d, e) {
      assert id[..8] == a && id[9..13] == b && id[14..18] == c && id[19..23] == d && id[24..] == e;
      forall i | 0 <= i < |id|
        ensures if i == 8 || i == 13 || i == 18 || i == 23 then id[i] == '-' else HexDigit(id[i])
      {
        assert i < 8 ==> id[i] == a[i];
        assert 8 < i < 13 ==> id[i] == b[i - 9];
        assert 13 < i < 18 ==> id[i] == c[i - 14];
        assert 18 < i < 23 ==> id[i] == d[i - 19];
        assert 23 < i ==> id[i] == e[i - 24];
      }
    }
  }
}
