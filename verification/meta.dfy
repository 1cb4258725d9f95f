/** Object metadata shared by every Kubernetes object in the model, and the byte
    strings that secrets carry. */
module Meta {

  /** The subset of `metav1.ObjectMeta` the modelled code reads or writes. */
  datatype ObjectMeta = ObjectMeta(
    namespace: string,
    name: string,
    clusterName: string,
    resourceVersion: string,
    labels: map<string, string>,
    annotations: map<string, string>)

  /** `metav1.TypeMeta`: the kind and group/version stamped on an object. */
  datatype TypeMeta = TypeMeta(kind: string, apiVersion: string)

  /** Metadata with only a namespace and a name, as the callers in the source build it. */
  function NamedMeta(namespace: string, name: string): (m: ObjectMeta)
    ensures m.namespace == namespace && m.name == name
    ensures m.labels == map[] && m.annotations == map[]
  {
    ObjectMeta(namespace, name, "", "", map[], map[])
  }

  /** A Go `[]byte`, kept as the `string` it converts to and from. A Dafny string is a
      sequence of characters, not of bytes: byte lengths and secret data that is not
      valid UTF-8 are not represented, and `ToBytes` and `FromBytes` are exact inverses. */
  datatype Bytes = Bytes(content: string)

  function ToBytes(s: string): Bytes { Bytes(s) }

  /** A Kubernetes secret: its metadata and its named byte strings. */
  datatype Secret = Secret(meta: ObjectMeta, data: map<string, Bytes>)

  function FromBytes(b: Bytes): string { b.content }
}
