/** The KMS helpers of the first generation of the tool
    (src/github.com/UKHomeOffice/s3secrets/kms.go): a file is read whole and
    sent to KMS in one request. */
module LegacyKms {
  import opened Outcomes
  import opened Environment

  /** encryptFile: the ciphertext of the file's whole content under `kid`;
      None when the file cannot be read or KMS refuses. */
  function EncryptFile(cloud: Cloud, host: Host, kid: string, path: string): (r: Option<Bytes>)
    ensures r.Some? <==> host.read(path).Some? && cloud.encrypt(kid, host.read(path).value).Some?
    ensures r.Some? ==> r == cloud.encrypt(kid, host.read(path).value)
  {
    match host.read(path)
    case None => None
    case Some(content) => cloud.encrypt(kid, content)
  }

  /** decryptFile: the plaintext of the file's whole content; None when the
      file cannot be read or KMS refuses. */
  function DecryptFile(cloud: Cloud, host: Host, path: string): (r: Option<Bytes>)
    ensures r.Some? <==> host.read(path).Some? && cloud.decrypt(host.read(path).value).Some?
    ensures r.Some? ==> r == cloud.decrypt(host.read(path).value)
  {
    match host.read(path)
    case None => None
    case Some(content) => cloud.decrypt(content)
  }
}
