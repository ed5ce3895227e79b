/** The HubCluster custom resource and the key a reconcile request carries. */
module OnpremTypes {

  /** A reconcile request: the namespace and name of a HubCluster. */
  datatype NamespacedName = NamespacedName(namespace: string, name: string)

  /** The observed state: the version of the installed release ("" until installed). */
  datatype HubClusterStatus = HubClusterStatus(version: string)

  /** A HubCluster instance: its identity and its status (its spec has no fields). */
  datatype HubCluster = HubCluster(namespace: string, name: string, status: HubClusterStatus)
}
