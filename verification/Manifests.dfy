/** What the controller asks of a device. */
module Manifests {
  datatype FileResource = FileResource(path: string, content: string, mode: string, owner: string)
  datatype ServiceResource = ServiceResource(name: string, enabled: string, state: string)
  datatype CertificateResource = CertificateResource(name: string, commonName: string)

  datatype Spec = Spec(files: seq<FileResource>, services: seq<ServiceResource>, certificates: seq<CertificateResource>)
  datatype Manifest = Manifest(version: nat, spec: Spec)
}
