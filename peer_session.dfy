/** The state that `setupPeer` (frontend/hooks/peer.js) keeps in its
    closure: the `dataConnections` map, at most one outgoing data
    connection per peer id, and the `audioChunks` map of partly received
    audio messages. Sending returns the frames written to the connection;
    receiving returns what is handed to the consumer callbacks. */
module PeerSessions {
  import opened Basics
  import opened AudioCodec

  /** A PeerJS data connection: the peer it reaches and the library's
      `open` flag. */
  class DataConnection {
    const peer: string
    var open: bool

    /** `peer.connect(peerId, ...)`: the channel opens later. */
    constructor (peer: string)
      ensures this.peer == peer && !open
    {
      this.peer := peer;
      open := false;
    }

    /** The library's `open` event on this connection. */
    method Opened()
      modifies this
      ensures open
    {
      open := true;
    }
  }

  class PeerSession {
    var dataConnections: map<string, DataConnection>
    var audioChunks: Table

    /** Each stored connection is keyed by the peer it reaches. */
    ghost predicate Valid()
      reads this
    {
      forall p :: p in dataConnections ==> dataConnections[p].peer == p
    }

    constructor ()
      ensures Valid() && dataConnections == map[] && audioChunks == map[]
    {
      dataConnections := map[];
      audioChunks := map[];
    }

    /** `ensureDataConnection`: a stored connection is reused as it is;
      otherwise a new, not yet open, one is stored for the peer. */
    method EnsureDataConnection(peerId: string) returns (conn: DataConnection)
      requires Valid()
      modifies this
      ensures Valid() && conn.peer == peerId
      ensures peerId in old(dataConnections) ==>
        conn == old(dataConnections)[peerId] && dataConnections == old(dataConnections)
      ensures peerId !in old(dataConnections) ==>
        fresh(conn) && !conn.open && dataConnections == old(dataConnections)[peerId := conn]
      ensures audioChunks == old(audioChunks)
    {
      if peerId !in dataConnections {
        var c := new DataConnection(peerId);
        dataConnections := dataConnections[peerId := c];
      }
      conn := dataConnections[peerId];
    }

    /** The `close` handler of any connection, stored or incoming: it
      forgets whatever connection is stored under that connection's peer. */
    method OnClose(conn: DataConnection)
      requires Valid()
      modifies this
      ensures Valid()
      ensures dataConnections == old(dataConnections) - {conn.peer}
      ensures audioChunks == old(audioChunks)
    {
      dataConnections := dataConnections - {conn.peer};
    }

    /** `sendTranscript`: a frame goes out only on an already open
      connection, so the first send to a new peer is dropped. */
    method SendTranscript(peerId: string, text: string) returns (sent: seq<Frame>)
      requires Valid()
      modifies this
      ensures Valid() && peerId in dataConnections && audioChunks == old(audioChunks)
      ensures peerId in old(dataConnections) ==> dataConnections == old(dataConnections)
      ensures peerId !in old(dataConnections) ==>
        && dataConnections - {peerId} == old(dataConnections)
        && fresh(dataConnections[peerId]) && !dataConnections[peerId].open
      ensures sent == if peerId in old(dataConnections) && old(dataConnections)[peerId].open
        then [Transcript(text)] else []
    {
      var conn := EnsureDataConnection(peerId);
      sent := [];
      if conn.open {
        sent := [Transcript(text)];
      }
    }

    /** `sendLanguagePreferences`: as `sendTranscript`. */
    method SendLanguagePreferences(peerId: string, preferences: Preferences) returns (sent: seq<Frame>)
      requires Valid()
      modifies this
      ensures Valid() && peerId in dataConnections && audioChunks == old(audioChunks)
      ensures peerId in old(dataConnections) ==> dataConnections == old(dataConnections)
      ensures peerId !in old(dataConnections) ==>
        && dataConnections - {peerId} == old(dataConnections)
        && fresh(dataConnections[peerId]) && !dataConnections[peerId].open
      ensures sent == if peerId in old(dataConnections) && old(dataConnections)[peerId].open
        then [LanguagePreferences(preferences)] else []
    {
      var conn := EnsureDataConnection(peerId);
      sent := [];
      if conn.open {
        sent := [LanguagePreferences(preferences)];
      }
    }

    /** `sendAudioMessage`, with the `Date.now()` id as a parameter: on an
      open connection, the info frame and then every chunk frame. */
    method SendAudioMessage(peerId: string, messageId: string, m: AudioMessage) returns (sent: seq<Frame>)
      requires Valid()
      modifies this
      ensures Valid() && peerId in dataConnections && audioChunks == old(audioChunks)
      ensures peerId in old(dataConnections) ==> dataConnections == old(dataConnections)
      ensures peerId !in old(dataConnections) ==>
        && dataConnections - {peerId} == old(dataConnections)
        && fresh(dataConnections[peerId]) && !dataConnections[peerId].open
      ensures sent == if peerId in old(dataConnections) && old(dataConnections)[peerId].open
        then AudioFrames(messageId, m) else []
    {
      var conn := EnsureDataConnection(peerId);
      sent := [];
      if conn.open {
        sent := EncodeFrames(messageId, m);
      }
    }

    /** The `data` handler: dispatch on the frame's type, with the
      reassembly entry updated in place. */
    method OnData(f: Frame) returns (delivery: Delivery)
      modifies this
      ensures Step(audioChunks, delivery) == Receive(old(audioChunks), f)
      ensures dataConnections == old(dataConnections)
    {
      delivery := NoDelivery;
      match f {
        case Transcript(text) =>
          delivery := TranscriptReceived(text);
        case LanguagePreferences(p) =>
          delivery := PreferencesReceived(p);
        case AudioInfo(info) =>
          if !(0 <= info.totalChunks <= MaxArrayLength) {
            delivery := Threw;
          } else {
            audioChunks := audioChunks[info.messageId := Reassembly(info, Holes(info.totalChunks), 0)];
          }
        case AudioChunk(mid, index, _, data) =>
          if mid in audioChunks {
            var entry := audioChunks[mid];
            entry := entry.(chunks := Store(entry.chunks, index, data));
            entry := entry.(received := entry.received + 1);
            if entry.received == entry.info.totalChunks {
              delivery := AudioReceived(Completed(entry));
              audioChunks := audioChunks - {mid};
            } else {
              audioChunks := audioChunks[mid := entry];
            }
          }
        case Unrecognised =>
      }
    }
  }
}
