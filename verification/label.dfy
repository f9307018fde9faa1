/**
  The 11-byte volume label field shared by the boot sector and the root
  directory's volume-label entry (`prepareVolumeLabel` in both writers).

  Characters are the label's bytes (`static_cast<unsigned char>`); case
  conversion is `std::toupper` in the "C" locale, which changes only the
  ASCII letters a..z.
 */
module VolumeLabel {
  import opened Bytes

  const LabelLength: nat := 11
  const Space: byte := 0x20

  type Label = s: seq<byte> | |s| == 11 witness [0x20, 0x20, 0x20, 0x20, 0x20, 0x20, 0x20, 0x20, 0x20, 0x20, 0x20]

  predicate IsLower(c: byte)
  {
    'a' as int <= c <= 'z' as int
  }

  /** `std::toupper` in the "C" locale. */
  function ToUpper(c: byte): (u: byte)
    ensures !IsLower(u)
    ensures IsLower(c) ==> u == c - 0x20
    ensures !IsLower(c) ==> u == c
  {
    if IsLower(c) then c - 0x20 else c
  }

  /**
    The characters a `const char*` denotes: everything before the first NUL
    (what `std::string_view{label}` measures with `strlen`).
   */
  function CString(buf: seq<byte>): (r: seq<byte>)
    ensures r <= buf
    ensures forall i :: 0 <= i < |r| ==> r[i] != 0
    ensures |r| < |buf| ==> buf[|r|] == 0
  {
    if buf == [] || buf[0] == 0 then [] else [buf[0]] + CString(buf[1..])
  }

  /** Uppercase copies of `s`, one for one. */
  function Upper(s: seq<byte>): (r: seq<byte>)
    ensures |r| == |s|
  {
    if s == [] then [] else [ToUpper(s[0])] + Upper(s[1..])
  }

  /**
    `prepareVolumeLabel`: start from eleven spaces and overwrite the first
    min(|text|, 11) of them with the uppercased leading characters of `text`.
   */
  function PrepareVolumeLabel(text: seq<byte>): (r: Label)
    ensures forall i :: 0 <= i < |text| && i < 11 ==> r[i] == ToUpper(text[i])
    ensures forall i :: |text| <= i < 11 ==> r[i] == Space
  {
    var len := if |text| < LabelLength then |text| else LabelLength;
    UpperAt(text[..len]);
    Upper(text[..len]) + seq(LabelLength - len, _ => Space)
  }

  lemma {:induction false} UpperAt(s: seq<byte>)
    ensures forall i :: 0 <= i < |s| ==> Upper(s)[i] == ToUpper(s[i])
  {
    if s != [] {
      UpperAt(s[1..]);
      assert forall i :: 1 <= i < |s| ==> Upper(s)[i] == Upper(s[1..])[i - 1];
    }
  }

  /** No byte of a prepared label is a lowercase ASCII letter. */
  lemma PreparedIsUppercase(text: seq<byte>)
    ensures forall i :: 0 <= i < 11 ==> !IsLower(PrepareVolumeLabel(text)[i])
  {
  }

  /** Preparing a prepared label changes nothing. */
  lemma PrepareIdempotent(text: seq<byte>)
    ensures PrepareVolumeLabel(PrepareVolumeLabel(text)) == PrepareVolumeLabel(text)
  {
    var l := PrepareVolumeLabel(text);
    var l2 := PrepareVolumeLabel(l);
    forall i | 0 <= i < 11
      ensures l2[i] == l[i]
    {
    }
  }

  /**
    The label a caller of the C entry points gets: the buffer is read up to
    its NUL terminator before the characters are prepared.
   */
  function CLabel(buf: seq<byte>): Label
  {
    PrepareVolumeLabel(CString(buf))
  }

  /**
    The C entry points (which stop at the first NUL) and the `string_view`
    class variant (which does not) agree on every label text without a NUL
    in its first 11 bytes.
   */
  lemma CLabelAgreesWithoutNul(text: seq<byte>)
    requires forall i :: 0 <= i < |text| && i < 11 ==> text[i] != 0
    ensures CLabel(text) == PrepareVolumeLabel(text)
  {
    var c := CString(text);
    assert forall i :: 0 <= i < |c| ==> c[i] == text[i];
    var a := CLabel(text);
    var b := PrepareVolumeLabel(text);
    forall i | 0 <= i < 11
      ensures a[i] == b[i]
    {
    }
  }

  /**
    An embedded NUL makes them differ: the C variant pads with spaces from
    the NUL on, the `string_view` variant copies the NUL into the field.
   */
  lemma CLabelStopsAtNul()
    ensures CLabel([0x41, 0, 0x42]) != PrepareVolumeLabel([0x41, 0, 0x42])
    ensures CLabel([0x41, 0, 0x42])[1] == Space
    ensures PrepareVolumeLabel([0x41, 0, 0x42])[1] == 0
  {
    assert CString([0x41, 0, 0x42]) == [0x41] by {
      assert [0x41, 0, 0x42][1..] == [0, 0x42];
    }
  }
}
