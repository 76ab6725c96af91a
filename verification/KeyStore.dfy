/** The keys of the ephemeral store (key_value_store.go): a value that may expire. */
module KeyStore {
  /** A key is absent, or holds a value until an instant. */
  datatype Slot<V> = Vacia | Guardado(valor: V, vence: int) {
    predicate Viva(t: int) { Guardado? && t < vence }
  }

  /** The slot of a key; a key that was never written is absent. */
  function En<K, V>(m: map<K, Slot<V>>, k: K): Slot<V> {
    if k in m then m[k] else Vacia
  }

  /** How the attempt to take a lock ends: the wait can run out, the caller can give up, and the store can fail. */
  datatype Candado = Tomado | Vencido | Cancelado | Fallido
}
