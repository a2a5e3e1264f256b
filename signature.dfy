/** `SignatureService`: each doctor's signature is a PNG file named after the
    doctor's id in the `signatures` directory.  The directory is a map from
    file name to the stored file; whether the image writer, the image reader
    and the file deletion succeed are parameters. */
module Signatures {
  import opened Common

  const SIGNATURES_DIRECTORY: string := "signatures"
  const SIGNATURE_EXTENSION: string := ".png"
  const SIGNATURE_PREFIX: string := "medecin_"

  /** A signature image, with the width and height JavaFX reports. */
  datatype Image = Image(width: real, height: real)

  /** Java's `(int)` cast of a `double`, which truncates toward zero. */
  function IntCast(x: real): (n: int)
    ensures 0.0 <= x ==> n as real <= x < n as real + 1.0
    ensures x < 0.0 ==> x <= n as real <= 0.0 && n as real < x + 1.0
  {
    if x >= 0.0 then x.Floor else -((-x).Floor)
  }

  /** `validateSignature`: false for null; otherwise the truncated width must
      lie in [50, 2000] and the truncated height in [20, 1000]. */
  predicate ValidateSignature(signature: Option<Image>) {
    if signature.None? then false
    else
      var width := IntCast(signature.value.width);
      var height := IntCast(signature.value.height);
      if width < 50 || height < 20 then false
      else if width > 2000 || height > 1000 then false
      else true
  }

  /** On the reported dimensions: at least 50 by 20 pixels and less than
      2001 by 1001, so a width of 2000.5 still passes. */
  lemma ValidateSignatureBounds(signature: Option<Image>)
    ensures ValidateSignature(signature) <==>
      signature.Some? && 50.0 <= signature.value.width < 2001.0 && 20.0 <= signature.value.height < 1001.0
  {
    if signature.Some? {
      var w, h := signature.value.width, signature.value.height;
      var cw, ch := IntCast(w), IntCast(h);
      assert cw >= 50 <==> w >= 50.0;
      assert ch >= 20 <==> h >= 20.0;
      assert cw <= 2000 <==> w < 2001.0;
      assert ch <= 1000 <==> h < 1001.0;
    }
  }

  /** `isSignatureEmpty`: true for null or when a truncated dimension is 0. */
  predicate IsSignatureEmpty(signature: Option<Image>) {
    signature.None? || IntCast(signature.value.width) == 0 || IntCast(signature.value.height) == 0
  }

  /** null is empty; a signature that passes validation is not empty. */
  lemma ValidNotEmpty(signature: Option<Image>)
    ensures signature.None? ==> IsSignatureEmpty(signature) && !ValidateSignature(signature)
    ensures ValidateSignature(signature) ==> !IsSignatureEmpty(signature)
  {
  }

  /** `getSignatureFile`: `medecin_<id>.png`; a null id gives `medecin_null.png`. */
  function SignatureFileName(medecinId: Option<int>): (name: string)
    ensures StartsWith(name, SIGNATURE_PREFIX)
    ensures |name| >= |SIGNATURE_PREFIX| + |SIGNATURE_EXTENSION| + 1
    ensures name[|name| - |SIGNATURE_EXTENSION|..] == SIGNATURE_EXTENSION
    ensures name[|SIGNATURE_PREFIX|..|name| - |SIGNATURE_EXTENSION|] == LongText(medecinId)
  {
    var name := SIGNATURE_PREFIX + LongText(medecinId) + SIGNATURE_EXTENSION;
    assert name[..|SIGNATURE_PREFIX|] == SIGNATURE_PREFIX;
    name
  }

  /** Two doctors never share a signature file. */
  lemma FileNamesDistinct(a: int, b: int)
    requires a != b
    ensures SignatureFileName(Some(a)) != SignatureFileName(Some(b))
  {
    if SignatureFileName(Some(a)) == SignatureFileName(Some(b)) {
      IntToStringInjective(a, b);
    }
  }

  /** `getSignatureFilePath`: the file inside `signatures`, resolved against
      the working directory `cwd`. */
  function SignatureFilePath(cwd: string, medecinId: Option<int>): (path: string)
    ensures path == cwd + "/" + SIGNATURES_DIRECTORY + "/" + SignatureFileName(medecinId)
  {
    cwd + "/" + SIGNATURES_DIRECTORY + "/" + SignatureFileName(medecinId)
  }

  /** A file of the directory: the image it encodes and its length in bytes. */
  datatype StoredFile = StoredFile(image: Image, length: nat)

  class SignatureService {
    /** The files of `signatures`, by name. */
    var files: map<string, StoredFile>

    constructor ()
      ensures files == map[]
    {
      files := map[];
    }

    /** `hasSignature`: false for a null id; otherwise the doctor's file must
        exist and not be empty. */
    predicate HasSignature(medecinId: Option<int>)
      reads this
    {
      medecinId.Some? && SignatureFileName(medecinId) in files && files[SignatureFileName(medecinId)].length > 0
    }

    /** `saveSignature`: false for a null id or image; otherwise the PNG the
        writer produces (`encodedLength` bytes) replaces the doctor's file when
        the writer succeeds, and nothing changes when it does not. */
    method SaveSignature(medecinId: Option<int>, signature: Option<Image>, writeOk: bool, encodedLength: nat)
      returns (ok: bool)
      modifies this
      ensures ok <==> medecinId.Some? && signature.Some? && writeOk
      ensures ok ==> files == old(files)[SignatureFileName(medecinId) := StoredFile(signature.value, encodedLength)]
      ensures !ok ==> files == old(files)
      ensures ok ==> LoadSignature(medecinId, true) == signature
      ensures ok ==> (HasSignature(medecinId) <==> encodedLength > 0)
    {
      if medecinId.None? {
        return false;
      }
      if signature.None? {
        return false;
      }
      if writeOk {
        files := files[SignatureFileName(medecinId) := StoredFile(signature.value, encodedLength)];
        return true;
      }
      return false;
    }

    /** `loadSignature`: null for a null id or a missing file, and when the
        reader cannot decode it; otherwise the stored image. */
    function LoadSignature(medecinId: Option<int>, readOk: bool): (r: Option<Image>)
      reads this
      ensures r.Some? <==> medecinId.Some? && SignatureFileName(medecinId) in files && readOk
      ensures r.Some? ==> r.value == files[SignatureFileName(medecinId)].image
    {
      if medecinId.None? then None
      else if SignatureFileName(medecinId) !in files then None
      else if !readOk then None
      else Some(files[SignatureFileName(medecinId)].image)
    }

    /** `deleteSignature`: false for a null id; true when the doctor has no
        file; otherwise the file is removed exactly when the deletion
        succeeds, and that is the result. */
    method DeleteSignature(medecinId: Option<int>, deleteOk: bool) returns (ok: bool)
      modifies this
      ensures medecinId.None? ==> !ok && files == old(files)
      ensures medecinId.Some? && SignatureFileName(medecinId) !in old(files) ==> ok && files == old(files)
      ensures medecinId.Some? && SignatureFileName(medecinId) in old(files) ==>
        ok == deleteOk && files == (if deleteOk then old(files) - {SignatureFileName(medecinId)} else old(files))
      ensures ok ==> !HasSignature(medecinId)
    {
      if medecinId.None? {
        return false;
      }
      var name := SignatureFileName(medecinId);
      if name !in files {
        return true;
      }
      if deleteOk {
        files := files - {name};
      }
      return deleteOk;
    }
  }

  /** Saving or deleting one doctor's signature leaves every other doctor's
      file as it was. */
  lemma OtherDoctorsUntouched(before: map<string, StoredFile>, medecinId: int, other: int, f: StoredFile)
    requires medecinId != other
    ensures var name := SignatureFileName(Some(other));
      && (name in before[SignatureFileName(Some(medecinId)) := f] <==> name in before)
      && (name in before ==> before[SignatureFileName(Some(medecinId)) := f][name] == before[name])
      && (name in before - {SignatureFileName(Some(medecinId))} <==> name in before)
  {
    FileNamesDistinct(medecinId, other);
  }
}
