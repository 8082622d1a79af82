/**
 * The part of a Kubernetes Pod that the patch engine reads and writes:
 * the containers' command lines and the pod-level DNS policy.
 */
module Pods {

  /** A container, reduced to its command: the ordered command-line arguments. */
  datatype Container = Container(command: seq<string>)

  /**
   * A Pod spec. `dnsPolicy` is a string, as Kubernetes' DNSPolicy type is;
   * an unset policy is the empty string.
   */
  datatype Pod = Pod(containers: seq<Container>, dnsPolicy: string)

  const DNS_CLUSTER_FIRST_WITH_HOST_NET: string := "ClusterFirstWithHostNet"
}
