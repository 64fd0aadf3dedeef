/** mem_fetch: one sector request on its way between an SM and DRAM. */
module MemFetch {
  import opened CacheConfig

  datatype Space = Global | Local | Share

  datatype WriteType = Normal | WriteThrough | WriteBack | WriteThroughL2

  datatype FetchStatus = L1Hit | L1Miss | L2Hit | L2Miss | Init

  datatype Fetch = Fetch(id: nat, sm: nat, isWrite: bool, addr: nat, sector: nat, space: Space, isAtomic: bool,
                         block: nat, warp: nat, ci: nat,
                         writeType: WriteType, status: FetchStatus, tlbHit: bool,
                         l1Ready: int, l2Ready: int, bank: nat, l2Id: nat)
  {
    /** m_sector_address. */
    function SectorAddr(): nat { SectorAddress(addr, sector) }

    /** A line-aligned request for one of the four sectors of its line. */
    predicate Aligned() { addr % LINE_SIZE == 0 && sector < SECTORS }

    /** A store that travels below the L1 and is answered by the L2. */
    predicate ForwardedWrite() { isWrite && writeType == Normal }
  }

  function SectorIndex(sectorAddr: nat): (k: nat)
    ensures k < SECTORS
  {
    sectorAddr % LINE_SIZE / SECTOR_SIZE
  }

  /** The sector address gives back the line and the sector, and the other way round. */
  lemma SectorAddrDecodes(f: Fetch)
    requires f.Aligned()
    ensures LineOf(f.SectorAddr()) == f.addr == LineOf(f.addr) && SectorIndex(f.SectorAddr()) == f.sector
    ensures f.SectorAddr() % SECTOR_SIZE == 0
  {
  }

  lemma SectorAddrEncodes(sa: nat)
    requires sa % SECTOR_SIZE == 0
    ensures SectorAddress(LineOf(sa), SectorIndex(sa)) == sa
  {
    var line, offset := sa / LINE_SIZE, sa % LINE_SIZE;
    assert offset % SECTOR_SIZE == 0;
    assert offset / SECTOR_SIZE * SECTOR_SIZE == offset;
  }
}
