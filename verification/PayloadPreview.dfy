/** The preview of a payload kept on a tool span: UTF-8 cut to a number of bytes. */
module PayloadPreview {
  import opened Common
  import opened Utf8

  datatype Preview = Preview(text: string, truncated: bool) | BadEncoding

  /** `_truncate_utf8`. */
  function Truncate(encoded: seq<Byte>, maxBytes: nat): Preview {
    if |encoded| <= maxBytes then
      match Decode(encoded)
      case Some(text) => Preview(text, false)
      case None => BadEncoding
    else
      Preview(DecodeIgnoring(encoded[..maxBytes]), true)
  }

  predicate Fits(text: string, maxBytes: nat) {
    |Encode(text)| <= maxBytes
  }

  /** Cutting the encoding of `text` and dropping what no longer decodes gives the longest prefix that fits. */
  lemma {:induction false} CutIsLongestPrefix(text: string, maxBytes: nat)
    requires |Encode(text)| > maxBytes
    ensures var cut := DecodeIgnoring(Encode(text)[..maxBytes]);
            && cut <= text && cut != text && Fits(cut, maxBytes)
            && !Fits(text[..|cut| + 1], maxBytes)
  {
    var c := EncodeChar(text[0]);
    var bs := Encode(text)[..maxBytes];
    if maxBytes < |c| {
      assert bs == c[..maxBytes];
      CutLeavesNothing(text[0], maxBytes);
      assert text[..1] == [text[0]];
      assert Encode([text[0]]) == c;
    } else {
      var rest := Encode(text[1..])[..maxBytes - |c|];
      assert bs == c + rest;
      FirstOfEncoding(text[0], rest);
      assert bs[|c|..] == rest;
      CutIsLongestPrefix(text[1..], maxBytes - |c|);
      var cut := DecodeIgnoring(rest);
      assert ([text[0]] + cut)[1..] == cut;
      assert text[..|cut| + 2][1..] == text[1..][..|cut| + 1];
    }
  }

  lemma PrefixesAreNoLonger(text: string, p: nat, q: nat)
    requires p <= q <= |text|
    ensures |Encode(text[..p])| <= |Encode(text[..q])|
  {
    assert text[..q] == text[..p] + text[p..q];
    EncodeAppend(text[..p], text[p..q]);
  }

  /** The preview is the longest prefix of the payload whose encoding fits, and the flag says whether it is proper. */
  lemma PreviewIsLongestPrefix(text: string, maxBytes: nat)
    ensures var r := Truncate(Encode(text), maxBytes);
            && r.Preview?
            && r.text <= text && Fits(r.text, maxBytes)
            && (forall q: string :: q <= text && Fits(q, maxBytes) ==> q <= r.text)
            && (r.truncated <==> r.text != text)
  {
    if Fits(text, maxBytes) {
      DecodesExactlyEncodings(Encode(text), text);
    } else {
      CutIsLongestPrefix(text, maxBytes);
      var cut := DecodeIgnoring(Encode(text)[..maxBytes]);
      forall q: string | q <= text && Fits(q, maxBytes) ensures q <= cut {
        if |q| > |cut| {
          assert q == text[..|q|];
          PrefixesAreNoLonger(text, |cut| + 1, |q|);
        }
      }
    }
  }
}
