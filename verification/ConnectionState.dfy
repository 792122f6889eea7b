/** TcpConnection::ConnectionState. */
module ConnectionStates {

  datatype ConnectionState = Connecting | Connected | DisConnected | DisConnecting
}
