/** The entities both daemons share. */
module Types {
  import opened Codec

  type Text = Bytes

  datatype NodeRole = NodeNone | NodePrimary | NodeSecondary | NodeError

  datatype DomainState = ShutOff | Starting | Running | ColoEnabled | Failed

  datatype ColoRole = RoleNone | RolePrimary | RoleSecondary | RoleFailover | RoleDegrade | RoleDead

  /** `colo_status` */
  datatype ColoStatus = ColoStatus(
    localStatus: NodeRole, colodPort: int,
    hostIp: Text, hostUser: Text, hostFilePath: Text,
    peerIp: Text, peerUser: Text, peerFilePath: Text)

  /** `colod_domain_status` */
  datatype DomainStatus = DomainStatus(
    pid: int, name: Text, status: DomainState, coloEnable: bool, coloStatus: ColoRole, path: Text)

  /** `colod_ret_val` */
  datatype RetVal = RetVal(code: int, msg: Text)

  const COLOD_PORT := 5678

  /** What looking up an unknown name leaves in the map of domains. */
  const DEFAULT_DOMAIN := DomainStatus(0, [], ShutOff, false, RoleNone, [])

  datatype Option<+T> = None | Some(value: T)
}
