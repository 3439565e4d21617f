/** `ColorTable`: the two 256-entry grayscale lookup tables, `Reverse`, and
    the 768-byte file layout of `LoadLUT`/`SaveLUT` (all red bytes, then all
    green, then all blue). The file becomes the byte sequence read or
    written. `Color.FromArgb(r, g, b)` always has alpha 255, so a colour is
    its three channels. */
module ColorTable {
  import opened Ints
  import opened Wrappers

  datatype Color = Color(r: uint8, g: uint8, b: uint8)

  function Gray(v: uint8): Color {
    Color(v, v, v)
  }

  /** The table `InitGrayscaleLUT(reverse)` builds. */
  ghost function GrayRamp(reverse: bool): (lut: seq<Color>)
    ensures |lut| == 256
  {
    seq(256, i requires 0 <= i < 256 => if reverse then Gray(255 - i) else Gray(i))
  }

  /** Monochrome2 is the ramp 0..255 and Monochrome1 the ramp 255..0. */
  method InitGrayscaleLUT(reverse: bool) returns (lut: array<Color>)
    ensures fresh(lut) && lut[..] == GrayRamp(reverse)
  {
    lut := new Color[256](_ => Gray(0));
    var i := 0;
    var b: uint8 := if reverse then 255 else 0;
    while i < 256
      invariant 0 <= i <= 256
      invariant i < 256 ==> b == (if reverse then 255 - i else i)
      invariant forall k :: 0 <= k < i ==> lut[k] == GrayRamp(reverse)[k]
    {
      lut[i] := Color(b, b, b);
      i := i + 1;
      if i < 256 {
        b := if reverse then b - 1 else b + 1;
      }
    }
  }

  /** `s` read from the back. */
  ghost function Reversed<T>(s: seq<T>): (r: seq<T>)
    ensures |r| == |s|
  {
    seq(|s|, i requires 0 <= i < |s| => s[|s| - 1 - i])
  }

  /** `Reverse` copies the table and reverses the copy in place; the table
      it was given is not touched. */
  method Reverse(lut: array<Color>) returns (clone: array<Color>)
    ensures fresh(clone) && clone[..] == Reversed(lut[..])
  {
    clone := new Color[lut.Length](i requires 0 <= i < lut.Length reads lut => lut[i]);
    assert clone[..] == lut[..];
    ReverseInPlace(clone);
  }

  /** `s` with its first `i` and last `i` entries exchanged end for end:
      what `Array.Reverse` has made of `s` after `i` exchanges. */
  ghost function PartlyReversed<T>(s: seq<T>, i: nat): (r: seq<T>)
    ensures |r| == |s|
  {
    seq(|s|, k requires 0 <= k < |s| => if k < i || |s| - i <= k then s[|s| - 1 - k] else s[k])
  }

  lemma PartlyReversedStep<T>(s: seq<T>, i: nat)
    requires i < |s| / 2
    ensures PartlyReversed(s, i)[i := s[|s| - 1 - i]][|s| - 1 - i := s[i]] == PartlyReversed(s, i + 1)
  {
  }

  lemma PartlyReversedHalf<T>(s: seq<T>)
    ensures PartlyReversed(s, |s| / 2) == Reversed(s)
  {
    Halves(|s|);
  }

  lemma Halves(n: nat)
    ensures n - n / 2 == n / 2 || n - n / 2 == n / 2 + 1
  {
  }

  /** `Array.Reverse`: exchanges the ends pairwise, moving inwards. */
  method ReverseInPlace(a: array<Color>)
    modifies a
    ensures a[..] == Reversed(old(a[..]))
  {
    ghost var s := a[..];
    var n := a.Length;
    var i := 0;
    while i < n / 2
      invariant 0 <= i <= n / 2 && |s| == n
      invariant a[..] == PartlyReversed(s, i)
    {
      PartlyReversedStep(s, i);
      var t := a[i];
      a[i] := a[n - 1 - i];
      a[n - 1 - i] := t;
      i := i + 1;
    }
    PartlyReversedHalf(s);
  }

  /** The reversed white-to-black ramp is the black-to-white ramp and back. */
  lemma ReverseGrayRamp(reverse: bool)
    ensures Reversed(GrayRamp(reverse)) == GrayRamp(!reverse)
  {
    var r := Reversed(GrayRamp(reverse));
    assert forall i :: 0 <= i < 256 ==> r[i] == GrayRamp(!reverse)[i];
  }

  /** The file `SaveLUT` writes for a 256-entry table. */
  ghost function LutBytes(lut: seq<Color>): (data: seq<uint8>)
    requires |lut| == 256
    ensures |data| == 768
  {
    seq(256, i requires 0 <= i < 256 => lut[i].r) +
    seq(256, i requires 0 <= i < 256 => lut[i].g) +
    seq(256, i requires 0 <= i < 256 => lut[i].b)
  }

  /** The table `LoadLUT` reads from a 768-byte file. */
  ghost function LutOf(data: seq<uint8>): (lut: seq<Color>)
    requires |data| == 768
    ensures |lut| == 256
  {
    seq(256, i requires 0 <= i < 256 => Color(data[i], data[i + 256], data[i + 512]))
  }

  /** Loading a saved table gives the table back. */
  lemma LoadSavedLut(lut: seq<Color>)
    requires |lut| == 256
    ensures LutOf(LutBytes(lut)) == lut
  {
    var d := LutBytes(lut);
    assert forall i :: 0 <= i < 256 ==> d[i] == lut[i].r && d[i + 256] == lut[i].g && d[i + 512] == lut[i].b;
    assert forall i :: 0 <= i < 256 ==> LutOf(d)[i] == lut[i];
  }

  /** Saving a loaded table writes the file back byte for byte. */
  lemma SaveLoadedLut(data: seq<uint8>)
    requires |data| == 768
    ensures LutBytes(LutOf(data)) == data
  {
    var d := LutBytes(LutOf(data));
    assert forall i :: 0 <= i < 768 ==> d[i] == data[i] by {
      forall i | 0 <= i < 768 ensures d[i] == data[i] {
        if i < 256 {
        } else if i < 512 {
          assert d[i] == LutOf(data)[i - 256].g;
        } else {
          assert d[i] == LutOf(data)[i - 512].b;
        }
      }
    }
  }

  /** A file of any length other than 768 bytes gives `None` (null). */
  method LoadLUT(data: seq<uint8>) returns (r: Option<array<Color>>)
    ensures r.Some? <==> |data| == 768
    ensures r.Some? ==> fresh(r.value) && r.value[..] == LutOf(data)
  {
    if |data| != 256 * 3 {
      return None;
    }
    var lut := new Color[256](_ => Gray(0));
    for i := 0 to 256
      invariant forall k :: 0 <= k < i ==> lut[k] == LutOf(data)[k]
    {
      lut[i] := Color(data[i], data[i + 256], data[i + 512]);
    }
    return Some(lut);
  }

  /** `SaveLUT`: `None` when the table does not have 256 entries (no file is
      created), otherwise the bytes written. */
  method SaveLUT(lut: array<Color>) returns (file: Option<seq<uint8>>)
    ensures file.Some? <==> lut.Length == 256
    ensures file.Some? ==> file.value == LutBytes(lut[..])
  {
    if lut.Length != 256 {
      return None;
    }
    ghost var want := LutBytes(lut[..]);
    var fs: seq<uint8> := [];
    for i := 0 to 256
      invariant |fs| == i && fs == want[..i]
    {
      fs := fs + [lut[i].r];
    }
    for i := 0 to 256
      invariant |fs| == 256 + i && fs == want[..256 + i]
    {
      fs := fs + [lut[i].g];
    }
    for i := 0 to 256
      invariant |fs| == 512 + i && fs == want[..512 + i]
    {
      fs := fs + [lut[i].b];
    }
    return Some(fs);
  }
}
