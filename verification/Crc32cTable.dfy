/** The lookup table of protocol/CRC32C.cpp and the one fact about it that the checksum
    proofs need: the top bytes of its 256 entries are pairwise distinct. It is not the
    Castagnoli table (entry 4 differs, for one). Both tables here are written as decision
    trees over the index, entries in index order, which the verifier evaluates quickly. */
module Crc32cTable {

  /** kCrc32cTable[i] */
  function Entry(i: nat): (e: nat)
  {
    if i < 128 then
     if i < 64 then
      if i < 32 then
       if i < 16 then
        if i < 8 then
         if i < 4 then
          if i < 2 then (if i < 1 then 0x00000000 else 0xF26B8303) else (if i < 3 then 0xE13B70F7 else 0x1350F3F4)
         else
          if i < 6 then (if i < 5 then 0xC2A7E8EE else 0x30CC6BED) else (if i < 7 then 0x239C9819 else 0xD1F71B1A)
        else
         if i < 12 then
          if i < 10 then (if i < 9 then 0x85AE4EDD else 0x77C5CDDE) else (if i < 11 then 0x64953E2A else 0x96FEBF29)
         else
          if i < 14 then (if i < 13 then 0x4709A433 else 0xB5622730) else (if i < 15 then 0xA632D4C4 else 0x545957C7)
       else
        if i < 24 then
         if i < 20 then
          if i < 18 then (if i < 17 then 0x0B5D9DAB else 0xF9361EA8) else (if i < 19 then 0xEA66ED5C else 0x180D6E5F)
         else
          if i < 22 then (if i < 21 then 0xC9FA7545 else 0x3B91F646) else (if i < 23 then 0x28C105B2 else 0xDAAA86B1)
        else
         if i < 28 then
          if i < 26 then (if i < 25 then 0x8EF3D376 else 0x7C985075) else (if i < 27 then 0x6FC8A381 else 0x9DA32082)
         else
          if i < 30 then (if i < 29 then 0x4C543B98 else 0xBE3FB89B) else (if i < 31 then 0xAD6F4B6F else 0x5F04C86C)
      else
       if i < 48 then
        if i < 40 then
         if i < 36 then
          if i < 34 then (if i < 33 then 0x17BB3B57 else 0xE5D0B854) else (if i < 35 then 0xF6804BA0 else 0x04EBC8A3)
         else
          if i < 38 then (if i < 37 then 0xD51CD3B9 else 0x277750BA) else (if i < 39 then 0x3427A34E else 0xC64C204D)
        else
         if i < 44 then
          if i < 42 then (if i < 41 then 0x9215758A else 0x607EF689) else (if i < 43 then 0x732E057D else 0x8145867E)
         else
          if i < 46 then (if i < 45 then 0x50B29D64 else 0xA2D91E67) else (if i < 47 then 0xB189ED93 else 0x43E26E90)
       else
        if i < 56 then
         if i < 52 then
          if i < 50 then (if i < 49 then 0x1CE6A4FC else 0xEE8D27FF) else (if i < 51 then 0xFDDDD40B else 0x0FB65708)
         else
          if i < 54 then (if i < 53 then 0xDE414C12 else 0x2C2ACF11) else (if i < 55 then 0x3F7A3CE5 else 0xCD11BFE6)
        else
         if i < 60 then
          if i < 58 then (if i < 57 then 0x9948EA21 else 0x6B236922) else (if i < 59 then 0x78739AD6 else 0x8A1819D5)
         else
          if i < 62 then (if i < 61 then 0x5BEF02CF else 0xA98481CC) else (if i < 63 then 0xBAD47238 else 0x48BFF13B)
     else
      if i < 96 then
       if i < 80 then
        if i < 72 then
         if i < 68 then
          if i < 66 then (if i < 65 then 0x2F7676AE else 0xDD1DF5AD) else (if i < 67 then 0xCE4D0659 else 0x3C26855A)
         else
          if i < 70 then (if i < 69 then 0xEDD19E40 else 0x1FBA1D43) else (if i < 71 then 0x0CEAEAB7 else 0xFE8169B4)
        else
         if i < 76 then
          if i < 74 then (if i < 73 then 0xAAD83C73 else 0x58B3BF70) else (if i < 75 then 0x4BE34C84 else 0xB988CF87)
         else
          if i < 78 then (if i < 77 then 0x687FD49D else 0x9A14579E) else (if i < 79 then 0x8944A46A else 0x7B2F2769)
       else
        if i < 88 then
         if i < 84 then
          if i < 82 then (if i < 81 then 0x242BED05 else 0xD6406E06) else (if i < 83 then 0xC5109DF2 else 0x377B1EF1)
         else
          if i < 86 then (if i < 85 then 0xE68C05EB else 0x14E786E8) else (if i < 87 then 0x07B7751C else 0xF5DCF61F)
        else
         if i < 92 then
          if i < 90 then (if i < 89 then 0xA185A3D8 else 0x53EE20DB) else (if i < 91 then 0x40BED32F else 0xB2D5502C)
         else
          if i < 94 then (if i < 93 then 0x63224B36 else 0x9149C835) else (if i < 95 then 0x82193BC1 else 0x7072B8C2)
      else
       if i < 112 then
        if i < 104 then
         if i < 100 then
          if i < 98 then (if i < 97 then 0x38CD4BF9 else 0xCAA6C8FA) else (if i < 99 then 0xD9F63B0E else 0x2B9DB80D)
         else
          if i < 102 then (if i < 101 then 0xFA6AA317 else 0x08012014) else (if i < 103 then 0x1B51D3E0 else 0xE93A50E3)
        else
         if i < 108 then
          if i < 106 then (if i < 105 then 0xBD630524 else 0x4F088627) else (if i < 107 then 0x5C5875D3 else 0xAE33F6D0)
         else
          if i < 110 then (if i < 109 then 0x7FC4EDCA else 0x8DAF6EC9) else (if i < 111 then 0x9EFF9D3D else 0x6C941E3E)
       else
        if i < 120 then
         if i < 116 then
          if i < 114 then (if i < 113 then 0x3394D452 else 0xC1FF5751) else (if i < 115 then 0xD2AFA4A5 else 0x20C427A6)
         else
          if i < 118 then (if i < 117 then 0xF1333CBC else 0x0358BFBF) else (if i < 119 then 0x10084C4B else 0xE263CF48)
        else
         if i < 124 then
          if i < 122 then (if i < 121 then 0xB63A9A8F else 0x4451198C) else (if i < 123 then 0x5701EA78 else 0xA56A697B)
         else
          if i < 126 then (if i < 125 then 0x749D7261 else 0x86F6F162) else (if i < 127 then 0x95A60296 else 0x67CD8195)
    else
     if i < 192 then
      if i < 160 then
       if i < 144 then
        if i < 136 then
         if i < 132 then
          if i < 130 then (if i < 129 then 0x5EECED5D else 0xAC876E5E) else (if i < 131 then 0xBFD79DAA else 0x4DBC1EA9)
         else
          if i < 134 then (if i < 133 then 0x9C4B05B3 else 0x6E2086B0) else (if i < 135 then 0x7D707544 else 0x8F1BF647)
        else
         if i < 140 then
          if i < 138 then (if i < 137 then 0xDB42A380 else 0x29292083) else (if i < 139 then 0x3A79D377 else 0xC8125074)
         else
          if i < 142 then (if i < 141 then 0x19E54B6E else 0xEB8EC86D) else (if i < 143 then 0xF8DE3B99 else 0x0AB5B89A)
       else
        if i < 152 then
         if i < 148 then
          if i < 146 then (if i < 145 then 0x55B172F6 else 0xA7DAF1F5) else (if i < 147 then 0xB48A0201 else 0x46E18102)
         else
          if i < 150 then (if i < 149 then 0x97169A18 else 0x657D191B) else (if i < 151 then 0x762DEAFF else 0x844669FC)
        else
         if i < 156 then
          if i < 154 then (if i < 153 then 0xD01F3C3B else 0x2274BF38) else (if i < 155 then 0x31244CCC else 0xC34FCFCF)
         else
          if i < 158 then (if i < 157 then 0x12B8D4D5 else 0xE0D357D6) else (if i < 159 then 0xF383A422 else 0x01E82721)
      else
       if i < 176 then
        if i < 168 then
         if i < 164 then
          if i < 162 then (if i < 161 then 0x4975D41A else 0xBB1E5719) else (if i < 163 then 0xA84EA4ED else 0x5A2527EE)
         else
          if i < 166 then (if i < 165 then 0x8BD23CF4 else 0x79B9BFF7) else (if i < 167 then 0x6AE94C03 else 0x9882CF00)
        else
         if i < 172 then
          if i < 170 then (if i < 169 then 0xCCDB9AC7 else 0x3EB019C4) else (if i < 171 then 0x2DE0EA30 else 0xDF8B6933)
         else
          if i < 174 then (if i < 173 then 0x0E7C7229 else 0xFC17F12A) else (if i < 175 then 0xEF4702DE else 0x1D2C81DD)
       else
        if i < 184 then
         if i < 180 then
          if i < 178 then (if i < 177 then 0x42284BB1 else 0xB043C8B2) else (if i < 179 then 0xA3133B46 else 0x5178B845)
         else
          if i < 182 then (if i < 181 then 0x808FA35F else 0x72E4205C) else (if i < 183 then 0x61B4D3A8 else 0x93DF50AB)
        else
         if i < 188 then
          if i < 186 then (if i < 185 then 0xC786056C else 0x35ED866F) else (if i < 187 then 0x26BD759B else 0xD4D6F698)
         else
          if i < 190 then (if i < 189 then 0x0521ED82 else 0xF74A6E81) else (if i < 191 then 0xE41A9D75 else 0x16711E76)
     else
      if i < 224 then
       if i < 208 then
        if i < 200 then
         if i < 196 then
          if i < 194 then (if i < 193 then 0x71B899E3 else 0x83D31AE0) else (if i < 195 then 0x9083E914 else 0x62E86A17)
         else
          if i < 198 then (if i < 197 then 0xB31F710D else 0x4174F20E) else (if i < 199 then 0x522401FA else 0xA04F82F9)
        else
         if i < 204 then
          if i < 202 then (if i < 201 then 0xF416D73E else 0x067D543D) else (if i < 203 then 0x152DA7C9 else 0xE74624CA)
         else
          if i < 206 then (if i < 205 then 0x36B13FD0 else 0xC4DABCD3) else (if i < 207 then 0xD78A4F27 else 0x25E1CC24)
       else
        if i < 216 then
         if i < 212 then
          if i < 210 then (if i < 209 then 0x7AE50648 else 0x888E854B) else (if i < 211 then 0x9BDE76BF else 0x69B5F5BC)
         else
          if i < 214 then (if i < 213 then 0xB842EEA6 else 0x4A296DA5) else (if i < 215 then 0x59799E51 else 0xAB121D52)
        else
         if i < 220 then
          if i < 218 then (if i < 217 then 0xFF4B4895 else 0x0D20CB96) else (if i < 219 then 0x1E703862 else 0xEC1BBB61)
         else
          if i < 222 then (if i < 221 then 0x3DECA07B else 0xCF87237C) else (if i < 223 then 0xDCD7D088 else 0x2EBC538B)
      else
       if i < 240 then
        if i < 232 then
         if i < 228 then
          if i < 226 then (if i < 225 then 0x6613A0B0 else 0x947823B3) else (if i < 227 then 0x8728D047 else 0x75435344)
         else
          if i < 230 then (if i < 229 then 0xA4B4485E else 0x56DFCB5D) else (if i < 231 then 0x458F38A9 else 0xB7E4BBAA)
        else
         if i < 236 then
          if i < 234 then (if i < 233 then 0xE3BDEE6D else 0x11D66D6E) else (if i < 235 then 0x02869E9A else 0xF0ED1D99)
         else
          if i < 238 then (if i < 237 then 0x211A0683 else 0xD3718580) else (if i < 239 then 0xC0217674 else 0x324AF577)
       else
        if i < 248 then
         if i < 244 then
          if i < 242 then (if i < 241 then 0x6D4E3F1B else 0x9F25BC18) else (if i < 243 then 0x8C754FEC else 0x7E1ECCEF)
         else
          if i < 246 then (if i < 245 then 0xAFE9D7F5 else 0x5D8254F6) else (if i < 247 then 0x4ED2A702 else 0xBCB92401)
        else
         if i < 252 then
          if i < 250 then (if i < 249 then 0xE8E071C6 else 0x1A8BF2C5) else (if i < 251 then 0x09DB0131 else 0xFBB08232)
         else
          if i < 254 then (if i < 253 then 0x2A479928 else 0xD82C1A2B) else (if i < 255 then 0xCB7CE9DF else 0x39176ADC)
  }

  /** The index whose entry has top byte i. */
  function IndexOfTop(i: nat): (e: nat)
  {
    if i < 128 then
     if i < 64 then
      if i < 32 then
       if i < 16 then
        if i < 8 then
         if i < 4 then
          if i < 2 then (if i < 1 then 0 else 159) else (if i < 3 then 234 else 117)
         else
          if i < 6 then (if i < 5 then 35 else 188) else (if i < 7 then 201 else 86)
        else
         if i < 12 then
          if i < 10 then (if i < 9 then 101 else 250) else (if i < 11 then 143 else 16)
         else
          if i < 14 then (if i < 13 then 70 else 217) else (if i < 15 then 172 else 51)
       else
        if i < 24 then
         if i < 20 then
          if i < 18 then (if i < 17 then 118 else 233) else (if i < 19 then 156 else 3)
         else
          if i < 22 then (if i < 21 then 85 else 202) else (if i < 23 then 191 else 32)
        else
         if i < 28 then
          if i < 26 then (if i < 25 then 19 else 140) else (if i < 27 then 249 else 102)
         else
          if i < 30 then (if i < 29 then 48 else 175) else (if i < 31 then 218 else 69)
      else
       if i < 48 then
        if i < 40 then
         if i < 36 then
          if i < 34 then (if i < 33 then 115 else 236) else (if i < 35 then 153 else 6)
         else
          if i < 38 then (if i < 37 then 80 else 207) else (if i < 39 then 186 else 37)
        else
         if i < 44 then
          if i < 42 then (if i < 41 then 22 else 137) else (if i < 43 then 252 else 99)
         else
          if i < 46 then (if i < 45 then 53 else 170) else (if i < 47 then 223 else 64)
       else
        if i < 56 then
         if i < 52 then
          if i < 50 then (if i < 49 then 5 else 154) else (if i < 51 then 239 else 112)
         else
          if i < 54 then (if i < 53 then 38 else 185) else (if i < 55 then 204 else 83)
        else
         if i < 60 then
          if i < 58 then (if i < 57 then 96 else 255) else (if i < 59 then 138 else 21)
         else
          if i < 62 then (if i < 61 then 67 else 220) else (if i < 63 then 169 else 54)
     else
      if i < 96 then
       if i < 80 then
        if i < 72 then
         if i < 68 then
          if i < 66 then (if i < 65 then 90 else 197) else (if i < 67 then 176 else 47)
         else
          if i < 70 then (if i < 69 then 121 else 230) else (if i < 71 then 147 else 12)
        else
         if i < 76 then
          if i < 74 then (if i < 73 then 63 else 160) else (if i < 75 then 213 else 74)
         else
          if i < 78 then (if i < 77 then 28 else 131) else (if i < 79 then 246 else 105)
       else
        if i < 88 then
         if i < 84 then
          if i < 82 then (if i < 81 then 44 else 179) else (if i < 83 then 198 else 89)
         else
          if i < 86 then (if i < 85 then 15 else 144) else (if i < 87 then 229 else 122)
        else
         if i < 92 then
          if i < 90 then (if i < 89 then 73 else 214) else (if i < 91 then 163 else 60)
         else
          if i < 94 then (if i < 93 then 106 else 245) else (if i < 95 then 128 else 31)
      else
       if i < 112 then
        if i < 104 then
         if i < 100 then
          if i < 98 then (if i < 97 then 41 else 182) else (if i < 99 then 195 else 92)
         else
          if i < 102 then (if i < 101 then 10 else 149) else (if i < 103 then 224 else 127)
        else
         if i < 108 then
          if i < 106 then (if i < 105 then 76 else 211) else (if i < 107 then 166 else 57)
         else
          if i < 110 then (if i < 109 then 111 else 240) else (if i < 111 then 133 else 26)
       else
        if i < 120 then
         if i < 116 then
          if i < 114 then (if i < 113 then 95 else 192) else (if i < 115 then 181 else 42)
         else
          if i < 118 then (if i < 117 then 124 else 227) else (if i < 119 then 150 else 9)
        else
         if i < 124 then
          if i < 122 then (if i < 121 then 58 else 165) else (if i < 123 then 208 else 79)
         else
          if i < 126 then (if i < 125 then 25 else 134) else (if i < 127 then 243 else 108)
    else
     if i < 192 then
      if i < 160 then
       if i < 144 then
        if i < 136 then
         if i < 132 then
          if i < 130 then (if i < 129 then 180 else 43) else (if i < 131 then 94 else 193)
         else
          if i < 134 then (if i < 133 then 151 else 8) else (if i < 135 then 125 else 226)
        else
         if i < 140 then
          if i < 138 then (if i < 137 then 209 else 78) else (if i < 139 then 59 else 164)
         else
          if i < 142 then (if i < 141 then 242 else 109) else (if i < 143 then 24 else 135)
       else
        if i < 152 then
         if i < 148 then
          if i < 146 then (if i < 145 then 194 else 93) else (if i < 147 then 40 else 183)
         else
          if i < 150 then (if i < 149 then 225 else 126) else (if i < 151 then 11 else 148)
        else
         if i < 156 then
          if i < 154 then (if i < 153 then 167 else 56) else (if i < 155 then 77 else 210)
         else
          if i < 158 then (if i < 157 then 132 else 27) else (if i < 159 then 110 else 241)
      else
       if i < 176 then
        if i < 168 then
         if i < 164 then
          if i < 162 then (if i < 161 then 199 else 88) else (if i < 163 then 45 else 178)
         else
          if i < 166 then (if i < 165 then 228 else 123) else (if i < 167 then 14 else 145)
        else
         if i < 172 then
          if i < 170 then (if i < 169 then 162 else 61) else (if i < 171 then 72 else 215)
         else
          if i < 174 then (if i < 173 then 129 else 30) else (if i < 175 then 107 else 244)
       else
        if i < 184 then
         if i < 180 then
          if i < 178 then (if i < 177 then 177 else 46) else (if i < 179 then 91 else 196)
         else
          if i < 182 then (if i < 181 then 146 else 13) else (if i < 183 then 120 else 231)
        else
         if i < 188 then
          if i < 186 then (if i < 185 then 212 else 75) else (if i < 187 then 62 else 161)
         else
          if i < 190 then (if i < 189 then 247 else 104) else (if i < 191 then 29 else 130)
     else
      if i < 224 then
       if i < 208 then
        if i < 200 then
         if i < 196 then
          if i < 194 then (if i < 193 then 238 else 113) else (if i < 195 then 4 else 155)
         else
          if i < 198 then (if i < 197 then 205 else 82) else (if i < 199 then 39 else 184)
        else
         if i < 204 then
          if i < 202 then (if i < 201 then 139 else 20) else (if i < 203 then 97 else 254)
         else
          if i < 206 then (if i < 205 then 168 else 55) else (if i < 207 then 66 else 221)
       else
        if i < 216 then
         if i < 212 then
          if i < 210 then (if i < 209 then 152 else 7) else (if i < 211 then 114 else 237)
         else
          if i < 214 then (if i < 213 then 187 else 36) else (if i < 215 then 81 else 206)
        else
         if i < 220 then
          if i < 218 then (if i < 217 then 253 else 98) else (if i < 219 then 23 else 136)
         else
          if i < 222 then (if i < 221 then 222 else 65) else (if i < 223 then 52 else 171)
      else
       if i < 240 then
        if i < 232 then
         if i < 228 then
          if i < 226 then (if i < 225 then 157 else 2) else (if i < 227 then 119 else 232)
         else
          if i < 230 then (if i < 229 then 190 else 33) else (if i < 231 then 84 else 203)
        else
         if i < 236 then
          if i < 234 then (if i < 233 then 248 else 103) else (if i < 235 then 18 else 141)
         else
          if i < 238 then (if i < 237 then 219 else 68) else (if i < 239 then 49 else 174)
       else
        if i < 248 then
         if i < 244 then
          if i < 242 then (if i < 241 then 235 else 116) else (if i < 243 then 1 else 158)
         else
          if i < 246 then (if i < 245 then 200 else 87) else (if i < 247 then 34 else 189)
        else
         if i < 252 then
          if i < 250 then (if i < 249 then 142 else 17) else (if i < 251 then 100 else 251)
         else
          if i < 254 then (if i < 253 then 173 else 50) else (if i < 255 then 71 else 216)
  }

  predicate TopByteDecides(i: nat)
  {
    Entry(i) < 0x1_0000_0000 && IndexOfTop(Entry(i) / 0x100_0000) == i
  }

  lemma TopByteDecidesFirst(i: nat)
    requires 0 <= i < 64
    ensures TopByteDecides(i)
  {
  }

  lemma TopByteDecidesSecond(i: nat)
    requires 64 <= i < 128
    ensures TopByteDecides(i)
  {
  }

  lemma TopByteDecidesThird(i: nat)
    requires 128 <= i < 192
    ensures TopByteDecides(i)
  {
  }

  lemma TopByteDecidesFourth(i: nat)
    requires 192 <= i < 256
    ensures TopByteDecides(i)
  {
  }

  lemma AllDecided(i: nat)
    requires i < 256
    ensures TopByteDecides(i)
  {
    if i < 64 { TopByteDecidesFirst(i); }
    else if i < 128 { TopByteDecidesSecond(i); }
    else if i < 192 { TopByteDecidesThird(i); }
    else { TopByteDecidesFourth(i); }
  }

  /** Entries are 32-bit words, and two entries with the same top byte have the same index. */
  lemma TopBytesDistinct(i: nat, j: nat)
    requires i < 256 && j < 256
    ensures Entry(i) < 0x1_0000_0000
    ensures Entry(i) / 0x100_0000 == Entry(j) / 0x100_0000 ==> i == j
  {
    AllDecided(i);
    AllDecided(j);
  }
}
