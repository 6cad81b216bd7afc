/** Bytes, optional values, and topic partitions, shared by every component. */
module Basics {

  newtype byte = x: int | 0 <= x < 256

  type Bytes = seq<byte>

  datatype Option<+T> = None | Some(value: T)

  // No element occurs twice
  ghost predicate Distinct<T>(xs: seq<T>) {
    forall i, j :: 0 <= i < j < |xs| ==> xs[i] != xs[j]
  }

  datatype TopicPartition = TopicPartition(topic: string, partition: nat)
}
