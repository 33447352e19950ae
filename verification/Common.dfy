/** Small definitions several models share. */
module Common {

  datatype Option<T> = None | Some(value: T)

  /** The operators of label selectors. */
  datatype Operator = In | NotIn | Exists | DoesNotExist

  predicate NonBlank(s: string) {
    s != ""
  }

  /** `k in m` as a term that quantifiers can be triggered by. */
  ghost predicate HasKey<K, V>(m: map<K, V>, k: K) {
    k in m
  }
}
